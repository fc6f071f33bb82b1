# A model of the restaurant order and payment backend

This project models the parts of the backend where a mistake costs money or stock, and proves what
they keep. Source paths below are relative to the root of the repository. `dafny verify
dfyconfig.toml` checks all of it.

| module | models |
|---|---|
| `InventoryCounts`, `StockKeys` | what a request loads, order lines as stock counts, and the text keys of those counts |
| `InventoryLedger`, `InventoryEffects`, `InventoryValidation`, `InventoryConservation` | guarded stock rows and the order operations that move stock; when each is accepted and what it does; when the check before them is exact; what they conserve |
| `OrderProtocol`, `OrderSteps`, `PaymentLinks`, `PaymentApproval` | concurrent order creation (day lock, MAX + 1, unique request key) and the Mercado Pago webhook over two transactions; what each step does; which notifications create an order |
| `BoldReceipts`, `BoldClaims`, `BoldAttempts` | Bold receipts fed by webhooks and polling, what a claim on one says, and QR payment attempts |
| `InvoiceMoney`, `InvoiceMapper` | cent arithmetic of electronic invoices, the invoice and credit note of an order |
| `InvoiceLifecycle`, `InvoiceSteps`, `InvoiceEdits`, `InvoiceGuarantees`, `InvoiceCredits`, `RegularInvoices` | the order row under issue, credit note, query, mail, cancellation and all content mutators; which calls start and which edits take effect, for all statuses; when its invoice is frozen; when a credit note repeats it |
| `BulkSelect` | splitting a total into uneven invoices and filling them from the catalogue |
| `TableGroups` | linked tables |
| `CartAssertions`, `DescribedSide`, `CombinedOptions` | cart matching by backtracking, fuzzy side phrases, one phrase per attribute |
| `CsvExport` | the CSV text of the invoice export and a reader for section 2 of RFC 4180 |
| `Options`, `OrderStatuses`, `Sequences` | shared types and helpers |

Services that assign fields are classes whose methods are proved equal to a function of the old
state; the results are lemmas about that function over every run. Where several requests interleave,
the module is a state machine whose events are the atomic steps: one transaction, one locked
statement, one reply from outside, a crash or a rollback. Beside each of these functions stand lemmas
named `...ExactlyWhen` or `...Changes` that say, with all statuses, locks and keys spelled out, on which
inputs it acts and what it then changes.

## What the proofs found

The code is modelled as it is. Where it does not do what its comments or its intent say, the model
keeps the code, exhibits the failing input, and proves the exact condition or the discipline under
which the property holds.

- `netUnitPrice` tries to close a one-cent gap by shifting the net (its comment calls failure rare).
  The shift never closes it: if any net price adds up to the gross, the first guess already is that
  net. The amounts that can be shown are exactly those with a small remainder (`Representable`);
  2,500 pesos at 8 % is not one of them, and then the recomputed total is off by exactly one cent.
- `buildInventoryCountByKey` reads sibling lines and whatever else the request loads for some
  also-deduct entries. Counting is additive if and only if no entry in use does (`SelfContained`).
- Stock plus what the orders hold stays constant if and only if each accepted request stores lines that
  count as what it took (`RunConservesExactlyWhen`). Things that break it: an attribute that is trimmed
  only when stored; a variant chosen with a line, which is not stored; and an exchange or removal on an
  order past cooking, because the order entity, loaded before its lines were deleted, is then saved and
  its items relation cascades, so the deleted lines come back. A late invoice reply after a cancellation does
  the same.
- `validateInventoryCounts` refuses a pool that a request reaches only through variant rows, however full
  and whoever else holds it. In a tidy configuration this is the only request that the check refuses and
  deduction would not.
- `parseVariantKey` undoes key construction if and only if the attribute name has no colon.
- A Mercado Pago payment id has at most one order, whatever crashes. A payment row has two exactly when a
  webhook ended between the commit of its order and the link, and another payment of the same preference
  then committed one. Also, a second payment id overwrites the id shown on a linked row.
- Receipts are confluent for a payment if and only if all merchants and amounts that argue about it argue
  for the same status; the first of them wins otherwise.
- A QR attempt marked paid always has its receipt. It stays paid if and only if no session is left that
  read it undecided; the late save of `create` is one.
- Calls that wait for Factus save the whole order they read. An accepted invoice is frozen if and only if
  its items store their prices and no waiting call holds another version; a cancellation lasts if and only
  if no waiting call read the order before it. A second issue, a query that read the pending order, a
  refused second credit note and a query of a credit-noted order each undo the invoice status. The comment
  above `assertOrderContentEditable` promises more.
- A credit note is built from the order, not from the invoice. With stored prices and unrenamed products it
  differs from the invoice on record if and only if, before it, a query recorded a document of other content,
  a refused note or a mail saved a copy of another document, or a cancellation skipped the note, and nothing
  settled the two since. The query is the likely one: a failed issue may be edited and then found accepted.
- The CSV text is read back exactly unless the last row is a single empty cell, which a table of 22
  columns never has.

## Model

| member | source | states |
|---|---|---|
| InventoryCounts.FirstMatch | src/orders/orders.service.ts:319-327 | the attribute chosen is the first that the product has a row for, and none is chosen only if no attribute has a row |
| InventoryCounts.GroupOf | src/orders/orders.service.ts:256-262 | the entry found is the first with exactly the name and value asked for, and none is found only if no entry has them |
| InventoryCounts.MatchedGroupMeaning | src/orders/orders.service.ts:251-263 | the linked variant row chosen is the first one of the first attribute that has any, and none is chosen only if no attribute has one |
| InventoryCounts.VariantLineTakes | src/orders/orders.service.ts:251-265 | a line whose first attribute with a linked variant row has that entry takes its units from its pool, and nothing of any other key |
| InventoryCounts.OtherLineTakes | src/orders/orders.service.ts:311-331 | any other line takes the units of its product's pool, or one unit of the variant row of its first attribute that has one, or one unit of its product, besides its also-deduct entries |
| InventoryCounts.UntrackedLineTakesNothing | src/orders/orders.service.ts:245-246 | a line of a product that is not tracked takes nothing |
| InventoryCounts.LoadExactlyWhen | src/products/products.service.ts:913-1078 | a request loads its products and their also-deduct targets and nothing else; its own products show their pools, mere targets their variant rows |
| InventoryCounts.FirstLineMeaning | src/orders/orders.service.ts:287 | the sibling read is the first line of the product, and none only if there is none |
| InventoryCounts.EntryTakes | src/orders/orders.service.ts:266-309 | an also-deduct entry takes its units from one row of its target: the fixed variant, else the first one chosen with the line, else the first one of the first sibling, else the product row |
| InventoryCounts.AddMoves | src/orders/orders.service.ts:260-261 | each move adds its units to its own counter and to no other |
| InventoryCounts.BuildInventoryCountByKey | src/orders/orders.service.ts:234-334 | for every key the counter equals the units all lines take of it, read off the inventory loaded for the request; what one line takes is said by the rows from `VariantLineTakes` to `EntryTakes` |
| InventoryCounts.LineCountsAlone | src/orders/orders.service.ts:266-309 | in a self-contained catalogue a line counts the same alone, among any siblings, with whatever else is loaded, and after it was stored |
| InventoryCounts.CountConcat | src/orders/orders.service.ts:234-334 | in a self-contained catalogue counting is a homomorphism from line lists to counts |
| InventoryCounts.SiblingBreaksAdditivity | src/orders/orders.service.ts:286-299 | any entry that reads siblings makes two lines count less together than apart |
| InventoryCounts.PoolBreaksAdditivity | src/products/products.service.ts:1054-1075 | an entry whose target sits in a pool takes a variant row alone and none once the target is requested too |
| InventoryCounts.AdditiveExactlyWhenSelfContained | src/orders/orders.service.ts:266-309 | counting is additive for all line lists if and only if every also-deduct entry in use has no units, targets a product without variant rows, fixes its variant of a product outside pools, or targets its own product in a pool |
| InventoryLedger.StockRoom.Decrement | src/products/products.service.ts:1083-1178 | refused exactly when a row exists and holds less than asked; otherwise that row alone goes down, by exactly the quantity |
| InventoryLedger.StockRoom.Increment | src/products/products.service.ts:1110-1201 | an existing row goes up by the quantity, nothing else changes |
| InventoryLedger.StockRoom.DeductInventory | src/orders/orders.service.ts:391-418 | for every order of the updates: succeeds exactly when each row holds its count, and then every row is down by its count |
| InventoryLedger.StockRoom.RestoreInventory | src/orders/orders.service.ts:420-447 | every row is up by its count, for every order of the updates |
| InventoryLedger.ValidateInventoryCounts | src/orders/orders.service.ts:347-389 | accepts exactly when every positive count is at most what the loaded inventory offers for its key |
| InventoryLedger.OrdersService.CreateOrder | src/orders/orders.service.ts:574-762 | the whole new state is the creation function of the old one; a refusal changes nothing |
| InventoryLedger.OrdersService.AppendOrderItems | src/orders/orders.service.ts:1575-1700 | the whole new state is the append function of the old one |
| InventoryLedger.OrdersService.CancelOrder | src/orders/orders.service.ts:1075-1263 | stock is restored and the lines go, once; a canceled order is left alone, a completed one needs force |
| InventoryLedger.OrdersService.ExchangeStock | src/orders/orders.service.ts:1399-1487 | old lines back and new lines out, or nothing at all |
| InventoryLedger.OrdersService.UpdateOrderItems | src/orders/orders.service.ts:1320-1487 | the whole new state is the replace function of the old one, with the stale-screen check, the switch to cancellation and the lines that the save brings back |
| InventoryLedger.OrdersService.RemoveOrderItems | src/orders/orders.service.ts:1747-1833 | the whole new state is the remove function of the old one, for one unit or all units of a product |
| InventoryEffects.TrimMeaning | src/orders/orders.service.ts:721-726 | trimming takes away the spaces around a text, all of them and nothing else |
| InventoryEffects.StoredMeaning | src/orders/orders.service.ts:715-733 | one line per requested line, with its product and its trimmed attributes; a new order drops the blank ones |
| InventoryEffects.CreateExactlyWhen | src/orders/orders.service.ts:574-762 | accepted if and only if it asks for something, the check passes and the rows hold it; then every row is down by its count and one new order holds the lines, and otherwise nothing changes |
| InventoryEffects.AppendExactlyWhen | src/orders/orders.service.ts:1575-1700 | the same for lines added to an order that is not finished and has no invoice accepted or pending |
| InventoryEffects.CancelExactlyWhen | src/orders/orders.service.ts:1075-1263 | every row is up by what the lines took and the order is empty, if and only if it was open, or completed and forced; otherwise nothing changes |
| InventoryEffects.ReplaceExactlyWhen | src/orders/orders.service.ts:1320-1487 | accepted if and only if the order is open, shown with all its lines, and the rows hold the new lines after the old ones are back; then that is what happens |
| Sequences.TakenOutExactlyWhen | src/orders/orders.service.ts:1766-1786 | all units of a product, or the one with an index, are taken out if and only if there are any, and one with that index; all others stay in order |
| InventoryEffects.RemoveExactlyWhen | src/orders/orders.service.ts:1747-1833 | the stock gets back exactly the units taken out of an open order, whose other lines stay; taking out the last ones cancels it |
| InventoryEffects.StocklessSteps | src/orders/orders.service.ts:2089-2137 | moving an open order on, locking it for an invoice or saving an earlier version moves no stock and touches no other order |
| InventoryValidation.ValidExactlyWhen | src/orders/orders.service.ts:347-418 | a request is accepted by the check if and only if deduction accepts it and the check can see every key in what the request loads: a pool through a product of its own, a variant through its loaded product, a product outside pools |
| InventoryValidation.ValidationIsSufficient | src/orders/orders.service.ts:347-418 | what validation accepts against the current stock, deduction cannot refuse on any key, whatever lines are given back first |
| InventoryValidation.VariantOnlyPoolIsRefused | src/orders/orders.service.ts:354-364 | a request that takes from a pool none of whose own products it asks for is refused, whoever else holds the pool |
| InventoryValidation.TidyValidExactlyWhen | src/products/products.service.ts:913-1078 | in a tidy configuration that is the only difference between check and deduction |
| InventoryConservation.StockNeverNegative | src/orders/orders.service.ts:391-447 | over every serial run, whatever the requests and the catalogue, no stock row goes negative or disappears |
| InventoryConservation.ApplyConservesExactlyWhen | src/orders/orders.service.ts:1399-1487 | an operation keeps stock plus held units of every row if and only if it is refused or what it stores counts as what it takes |
| InventoryConservation.RunConservesExactlyWhen | src/orders/orders.service.ts:391-447 | in every run stock plus what the orders hold is constant for each row, at all times, if and only if every step is refused or balanced |
| InventoryConservation.CleanBalancedExactlyWhen | src/orders/orders.service.ts:1436-1440 | with clean attributes and a self-contained catalogue a step is unbalanced if and only if lines that hold stock come back: by an exchange or removal on an order past cooking, or by the save of an earlier version |
| InventoryConservation.RunConserves | src/orders/orders.service.ts:391-447 | so every run of clean requests in a self-contained catalogue in which no such lines come back conserves |
| InventoryConservation.AllCanceledRestoresStock | src/orders/orders.service.ts:1162-1206 | a balanced run that ends with every order canceled leaves every row where it started |
| InventoryConservation.RacingCancelsRestoreOnce | src/orders/orders.service.ts:1183-1206 | any number of cancellations that all read the lines first restore them once |
| InventoryConservation.StoredSameLines | src/orders/orders.service.ts:715-733 | clean lines are stored as they were counted |
| InventoryConservation.PickSplits | src/orders/orders.service.ts:1774-1801 | the removed and the remaining lines split the count |
| InventoryConservation.ReadyExchangeKeepsOldLines | src/orders/orders.service.ts:1403-1440 | an exchange on an order past cooking leaves the old lines in it although their stock was given back |
| InventoryConservation.ChosenVariantIsLost | src/orders/orders.service.ts:274-285 | in any catalogue with an entry that fixes no variant, a created line with a chosen variant does not conserve |
| InventoryConservation.ChosenVariantIsAccepted | src/orders/orders.service.ts:582-585 | in a tidy configuration that creation is accepted if and only if the rows hold enough |
| InventoryConservation.UntrimmedAttributeBreaksConservation | src/orders/orders.service.ts:719-726 | a line with an untrimmed attribute is accepted if and only if the product row holds a unit, takes it there, and is stored as a line of the variant row |
| InventoryConservation.SavedAfterCancel | src/factus/factus.service.ts:346-359 | when a call that read an order before its cancellation saves it afterwards, the order has its lines again and the stock has them too |
| StockKeys.ParseUndoesRender | src/orders/orders.service.ts:336-345 | parsing a printed variant key gives the variant back if and only if its attribute name has no colon |
| StockKeys.DispatchUndoesRender | src/orders/orders.service.ts:396-417 | a printed key reaches the row it was printed for if and only if its attribute name has no colon |
| StockKeys.RenderInjective | src/orders/orders.service.ts:302-329 | two different keys without such a colon never share a counter |
| StockKeys.ColonMergesVariants | src/orders/orders.service.ts:302-303 | two different variants with a colon in a name print the same key |
| OrderProtocol.Find | src/orders/orders.service.ts:104-118 | the position of an order with the key, and none only when no committed order has it |
| OrderProtocol.MaxIsCount | src/orders/orders.service.ts:214-229 | while the numbers of a day are consecutive, MAX equals how many orders the day has |
| OrderSteps.MaxIsLargest | src/orders/orders.service.ts:214-229 | MAX is the largest number of the day, or 0 when the day has none |
| OrderProtocol.ReadMaxSafe | src/orders/orders.service.ts:633-638 | reading MAX + 1 under the lock keeps every invariant: the number stays the next one until the lock is given up |
| OrderProtocol.UnlockSafe | src/orders/orders.service.ts:758-784 | giving up the lock after the commit, or before the rollback, keeps every invariant |
| OrderProtocol.CommitSafe | src/orders/orders.service.ts:758-762 | the commit of an inserted order keeps numbers consecutive and keys unique for every other process |
| OrderProtocol.RecoverSafe | src/orders/orders.service.ts:783-793 | after a duplicate key the order found is the one carrying the key |
| OrderProtocol.LockRowSafe | src/payments/payments.service.ts:540-573 | locking the row and saving an already linked one keeps every invariant and the link; who goes on is said by `PaymentApproval.GoesOnExactlyWhen` |
| OrderProtocol.LinkSafe | src/payments/payments.service.ts:594-600 | saving the order id in the locked row keeps every invariant and every earlier link |
| OrderProtocol.ApplySafe | src/payments/payments.service.ts:539-674 | every step of every process, crash and rollback included, keeps all invariants, all committed orders and all links; that only approved payments create is `PaymentApproval.OrderWasApproved` |
| OrderSteps.ReadingExactlyWhen | src/payments/payments.service.ts:471-508 | a notification waits for the row it finds, or stops if that row shows its payment and is linked |
| OrderSteps.LookingUpExactlyWhen | src/orders/orders.service.ts:104-118 | a creation returns the order with its key if and only if there is one, and otherwise starts |
| OrderSteps.StartingExactlyWhen | src/orders/orders.service.ts:619-625 | the day lock is taken if and only if no process of that day is between taking it and giving it up |
| OrderSteps.LockedExactlyWhen | src/orders/orders.service.ts:633-637 | under the lock the next number is the largest of the day plus one |
| OrderSteps.NumberedExactlyWhen | src/orders/orders.service.ts:639-650 | the row is inserted if and only if no committed and no uncommitted row has its key |
| OrderSteps.InsertedExactlyWhen | src/orders/orders.service.ts:758-762 | a commit gives the row the next id; a failure leaves it uncommitted |
| OrderSteps.ClosingExactlyWhen | src/orders/orders.service.ts:759-784 | the lock goes after the commit, and before the rollback |
| OrderSteps.RolledBackExactlyWhen | src/orders/orders.service.ts:786-793 | after a duplicate key the order with the key is returned if and only if it is there |
| OrderSteps.OrdersExactlyWhen | src/orders/orders.service.ts:758 | only a commit adds an order, and it adds the inserted row at the end |
| OrderSteps.LinkExactlyWhen | src/payments/payments.service.ts:594-600 | the locked row is linked with the order the creation returned, unless another row carries the payment id |
| OrderSteps.LinkedExactlyWhen | src/payments/payments.service.ts:594-600 | a row is linked by nothing else |
| OrderSteps.LocksAreExclusive | src/orders/orders.service.ts:619-762 | in every run no two processes are inside one day, past the lock of one row, or hold uncommitted rows with one key |
| OrderProtocol.DailyNumbersCover | src/orders/orders.service.ts:619-637 | in every run the committed numbers of a day are exactly 1 to n |
| OrderProtocol.DailyNumbersDistinct | src/orders/orders.service.ts:759-762 | in every run no number of a day is given twice |
| OrderProtocol.OneOrderPerPayment | migrations/014_add_client_request_id_to_orders.sql:1-9 | in every run, with any redelivery and crash, at most one order exists per Mercado Pago payment id |
| OrderProtocol.LinkedOrderIsTheKeyedOne | src/payments/payments.service.ts:584-600 | a linked row names exactly the order carrying the key of the payment that linked it |
| OrderProtocol.LinksAreForEver | src/payments/payments.service.ts:559-573 | no later event changes a committed order or the order of a linked row |
| PaymentLinks.TwoOrdersExactlyWhen | src/payments/payments.service.ts:584-600 | in every run a payment row has two orders if and only if a webhook that was to link it with an order of its own ended without doing so, and later another order was committed for it |
| PaymentLinks.OneOrderPerStickyRow | src/payments/payments.service.ts:488-508 | as long as no row meets two payment ids, it has one order at most |
| PaymentLinks.RowShowsLinkerExactlyWhen | src/payments/payments.service.ts:552-573 | in every run a linked row shows, at all times, the payment of its order if and only if no step saves it for another payment |
| PaymentLinks.RowNamesItsOrder | src/payments/payments.service.ts:488-508 | as long as no row meets two payment ids, the linked order carries the key of the id the row shows |
| PaymentLinks.SecondPaymentRelabelsRow | src/payments/payments.service.ts:552-562 | one step: a notification leaves a linked row naming its order if and only if it is of the payment that linked it; any other id replaces the id shown and keeps the order |
| PaymentLinks.CrashLeavesOrder | src/payments/payments.service.ts:594-600 | a webhook that dies between the two commits leaves one new order with its key, or none if there was one, and an unlinked row |
| PaymentLinks.SecondPaymentAfterCrash | src/payments/payments.service.ts:471-486 | after such a crash a redelivery creates nothing, and a second payment of the same preference creates a second order |
| PaymentApproval.GoesOnExactlyWhen | src/payments/payments.service.ts:559-575 | a waiting webhook goes on to create if and only if it locks a free, unlinked row for an approved payment |
| PaymentApproval.ApprovedGoesOn | src/payments/payments.service.ts:575-593 | then it looks for its key with the row locked and nothing saved |
| PaymentApproval.OthersOnlySave | src/payments/payments.service.ts:559-573 | any other notification saves the payment id in the row, unless another row carries it, and ends: no order, no link |
| PaymentApproval.OrderWasApproved | src/payments/payments.service.ts:575-594 | in every run each order of a payment row carries the key of a payment that was approved for that row, while it was unlinked, before |
| PaymentApproval.LinkWasApproved | src/payments/payments.service.ts:594-600 | in every run a linked row was linked by such a payment |
| PaymentApproval.NoApprovalNoOrder | src/payments/payments.service.ts:642-645 | a run without an approved notification for a row makes no order for it and no link |
| PaymentApproval.KeysEqualExactlyWhen | src/payments/payments.service.ts:591 | two payment ids share a request key if and only if they are equal or agree in their first 57 characters |
| BoldReceipts.NextIsJoin | src/bold/bold-event.ts:74-81 | the next status is the join of the current one and what the event argues for |
| BoldReceipts.BoldService.ReceiveEvent | src/bold/bold.service.ts:41-113 | events, receipts and reply are the transaction function of the old state; a conflict rolls both tables back |
| BoldReceipts.BoldService.ClaimReceipt | src/bold/bold.service.ts:129-177 | receipts and reply are the claim function of the old ones, whose guards are `BoldClaims.ClaimStoredExactlyWhen` |
| BoldReceipts.BoldService.ReturnReceipt | src/bold/bold.service.ts:178-197 | receipts and reply are the return function of the old ones, whose guards are `BoldClaims.ReturnStoredExactlyWhen` |
| BoldReceipts.ReceiveRepliesExactlyWhen | src/bold/bold.service.ts:51-99 | a known event is a duplicate or an altered one; a new one is stored unless it argues about a receipt of another merchant or amount, which changes nothing |
| BoldReceipts.PollExactlyWhen | src/bold/bold-online.service.ts:306-345 | a polled approval is rolled back if and only if the receipt is voided or of another merchant or amount; otherwise exactly that receipt is approved |
| BoldClaims.ClaimStoredExactlyWhen | src/bold/bold.service.ts:131-169 | a claim is stored if and only if the receipt is approved, unclaimed, of this merchant and covers the advance, and the order is usable and has no receipt; then only that claim is written |
| BoldClaims.ReturnStoredExactlyWhen | src/bold/bold.service.ts:178-197 | an advance is returned if and only if its receipt is approved, claimed and not returned; then only that is written |
| BoldClaims.ClaimedWasApproved | src/bold/bold.service.ts:144-146 | whatever the operation, a receipt becomes claimed or returned only by such a call, and so only when it was approved |
| BoldClaims.ClaimedExactlyWhen | src/bold/bold.service.ts:129-177 | in every run a receipt ends claimed if and only if some step claimed it while it was approved |
| BoldClaims.ClaimIsKept | src/bold/bold.service.ts:146-147 | and it keeps that claim to the end |
| BoldClaims.ClaimedOnce | src/bold/bold.service.ts:146-147 | so it is claimed once at most |
| BoldClaims.ReturnedExactlyWhen | src/bold/bold.service.ts:178-197 | in every run an advance ends returned if and only if some step returned it while the receipt was approved and claimed |
| BoldClaims.ClaimedIsNeverRejected | src/bold/bold.service.ts:144 | in every run a claimed receipt is approved or voided, never rejected |
| BoldReceipts.DeliverEffect | src/bold/bold-online.service.ts:306-351 | one webhook event or polled approval that its receipt does not contradict joins its status into it and touches no other |
| BoldReceipts.DeliverSettles | src/bold/bold.service.ts:51-99 | one delivery, repeated or not, agreeing or not, leaves every payment with the join of its first merchant and amount |
| BoldReceipts.FirstClassWins | src/bold/bold.service.ts:91-97 | for every sequence of inputs a payment ends with the join of what the merchant and amount of its first contributing input argue |
| BoldReceipts.ConfluentExactlyWhen | src/bold/bold.service.ts:51-99 | all orders and repetitions of a set of inputs end alike for a payment if and only if all merchants and amounts that argue about it have the same join |
| BoldReceipts.Confluence | src/bold/bold.service.ts:51-99 | so inputs that agree end in their join in any order |
| BoldReceipts.DisagreementIsNotConfluent | src/bold/bold.service.ts:91-96 | a rejected and an approved sale with different amounts end differently in the two orders |
| BoldReceipts.DisagreementCanBeConfluent | src/bold/bold.service.ts:91-96 | two approved sales with different amounts end alike in both orders |
| BoldReceipts.ClaimKeeps | src/bold/bold.service.ts:144-174 | an order is paid by at most one receipt and never with more than was received |
| BoldReceipts.RunKeeps | src/bold/bold.service.ts:41-197 | over every run, consistent or not, no receipt disappears, no status goes down, and merchant, amount, claim and return are written once |
| BoldAttempts.SaveSafe | src/bold/bold-online.service.ts:220-240 | a full-row save from a stale copy keeps all attempts backed by receipts |
| BoldAttempts.ApprovalSafe | src/bold/bold-online.service.ts:306-351 | the approval transaction marks an attempt paid only with its receipt |
| BoldAttempts.AttemptsAreBacked | src/bold/bold-online.service.ts:139-360 | in every interleaving a paid attempt has an approved or voided receipt of equal merchant and amount, an annulled one a voided receipt |
| BoldAttempts.DecidedExactlyWhen | src/bold/bold-online.service.ts:242-360 | one step: an attempt becomes paid, refused, expired or annulled if and only if this reply reaches a refresh that read it open, paid only with a receipt that is not voided and of its charge |
| BoldAttempts.CreateExactlyWhen | src/bold/bold-online.service.ts:156-240 | a creation inserts its attempt, and later saves the row it inserted as running or unknown, whatever the row has become |
| BoldAttempts.RefreshExactlyWhen | src/bold/bold-online.service.ts:243-260 | a refresh keeps a copy of the attempt as it was, and a refusal or an expiry saves that copy with nothing but the status |
| BoldAttempts.VoidAnnuls | src/bold/bold-online.service.ts:250-258 | a refresh annuls an attempt if and only if its receipt is voided, whatever the attempt's status |
| BoldAttempts.ExpiredCanBePaid | src/bold/bold-online.service.ts:306-360 | an expired attempt stays open: a later refresh that finds the approval marks it paid |
| BoldAttempts.PaidForEverExactlyWhen | src/bold/bold-online.service.ts:250-260 | a paid attempt stays paid, or paid and voided, in every continuation if and only if no session is left that read it undecided |
| BoldAttempts.PaidIsLostExactlyWhen | src/bold/bold-online.service.ts:231-239 | one step: a paid attempt stops being paid if and only if a session saves it from a copy in which it was not paid |
| BoldAttempts.PaidCanBeOverwritten | src/bold/bold-online.service.ts:231-232 | the late save of `create` can turn an attempt that a refresh marked paid back to running |
| InvoiceMoney.RoundNearest | src/factus/factus-invoice.mapper.ts:22-25 | the rounding is the one nearest integer, halves going up |
| InvoiceMoney.StrictlyMonotone | src/factus/factus-invoice.mapper.ts:448-450 | net plus rounded tax is strictly increasing in the net |
| InvoiceMoney.SolutionIsFirstGuess | src/factus/factus-invoice.mapper.ts:448-450 | a net that adds up to the gross is the first guess, so there is at most one |
| InvoiceMoney.ClosesExactlyWhen | src/factus/factus-invoice.mapper.ts:443-463 | some net adds up to the gross if and only if the remainder condition holds, if and only if the first guess does |
| InvoiceMoney.GuessMisses | src/factus/factus-invoice.mapper.ts:448-451 | the guess recomputes to within 1 + rate/2 cents, so up to 100 % by at most one cent |
| InvoiceMoney.NetUnitPrice | src/factus/factus-invoice.mapper.ts:436-463 | the one net that adds up to the gross when it exists; otherwise the rounded division, whose total misses by exactly one cent for rates up to 100 % |
| InvoiceMoney.TaxAddsItsRate | src/factus/factus-invoice.mapper.ts:436-440 | each tax adds its rate, and nothing when it is excluded or not positive |
| InvoiceMoney.IdleTaxKeepsNetPrice | src/factus/factus-invoice.mapper.ts:443-445 | so such a tax changes no net price |
| InvoiceMoney.CorrectionNeverCloses | src/factus/factus-invoice.mapper.ts:451-458 | when the first guess misses, the corrected net misses too |
| InvoiceMoney.SomeMenuPricesNeverClose | src/factus/factus-invoice.mapper.ts:455-458 | 2,500 pesos at 8 % cannot be shown by any net, 5,000 pesos at 19 % can |
| InvoiceMapper.InvoiceTotalFromItems | src/factus/factus-invoice.mapper.ts:32-54 | the sum over lines of net and of each applicable tax rounded on its own |
| InvoiceMapper.TaxAddsItsPart | src/factus/factus-invoice.mapper.ts:42-52 | each tax adds its rounded part of the line, and nothing when it is excluded or not positive |
| InvoiceMapper.GroupItems | src/factus/factus-invoice.mapper.ts:496-521 | the groups in insertion order |
| InvoiceMapper.GroupingConserves | src/factus/factus-invoice.mapper.ts:502-521 | grouping conserves units and gross value |
| InvoiceMapper.GroupingCounts | src/factus/factus-invoice.mapper.ts:508-520 | each code, price and note has at most one group, which counts exactly the items with them |
| InvoiceMapper.MapItems | src/factus/factus-invoice.mapper.ts:473-535 | one priced line per group |
| InvoiceMapper.BuildDocument | src/factus/factus-invoice.mapper.ts:93-104 | lines and total of the order content, the same for invoice and credit note |
| InvoiceMapper.LineTaxError | src/factus/factus-invoice.mapper.ts:45-50 | the taxes of a line are off the combined rate by at most half a cent per tax |
| InvoiceMapper.LineError | src/factus/factus-invoice.mapper.ts:473-494 | a line of q units is within (q(1 + rate) + taxes)/2 cents of q times the menu price |
| InvoiceMapper.InvoiceConservesUnits | src/factus/factus-invoice.mapper.ts:496-566 | no unit is lost or invented between order and invoice |
| InvoiceMapper.InvoiceWithinBound | src/factus/factus-invoice.mapper.ts:32-54 | the whole invoice is within (units(1 + rate) + lines times taxes)/2 cents of the menu total |
| InvoiceLifecycle.OrderTable.IssueForOrder | src/factus/factus.service.ts:281-330 | the guards of issuing, and the document sent |
| InvoiceLifecycle.OrderTable.IssueReplied | src/factus/factus.service.ts:346-359 | the whole order read before the call is written back, with the outcome |
| InvoiceLifecycle.OrderTable.IssueFailed | src/factus/factus.service.ts:395-405 | the same with the error status |
| InvoiceLifecycle.OrderTable.CancelInvoice | src/factus/factus.service.ts:442-476 | only an accepted invoice gets a credit note, built from the order as it is |
| InvoiceLifecycle.OrderTable.NoteReplied | src/factus/factus.service.ts:483-529 | the order read before the call is written back, credit-noted or not; a cancellation then empties it after checking its status again |
| InvoiceLifecycle.OrderTable.CancelOrderFully | src/orders/orders.service.ts:1075-1263 | an invoiced order waits for its credit note, any other is emptied at once |
| InvoiceLifecycle.OrderTable.SyncOrderInvoice | src/factus/factus.service.ts:2080-2099 | an accepted invoice is not queried |
| InvoiceLifecycle.OrderTable.SyncReplied | src/factus/factus.service.ts:2104-2173 | the columns read before the query are written back, with the outcome or without |
| InvoiceLifecycle.OrderTable.ResendInvoiceEmail | src/factus/factus.service.ts:421-428 | only an accepted or credit-noted invoice is mailed |
| InvoiceLifecycle.OrderTable.MailReplied | src/factus/factus.service.ts:421-432 | the columns read before the mail are written back |
| InvoiceLifecycle.OrderTable.UpdateOrderItems | src/orders/orders.service.ts:1320-1500 | the row is the replacement function of the old one; on which invoices and orders it acts, and how, is `InvoiceEdits.EditsExactlyWhen` |
| InvoiceLifecycle.OrderTable.AppendOrderItems | src/orders/orders.service.ts:1575-1698 | the row is the append function of the old one; on which invoices and orders it acts, and how, is `InvoiceEdits.EditsExactlyWhen` |
| InvoiceLifecycle.OrderTable.RemoveOrderItems | src/orders/orders.service.ts:1747-1833 | the row is the removal function of the old one; on which invoices and orders it acts, and how, is `InvoiceEdits.EditsExactlyWhen` |
| InvoiceLifecycle.OrderTable.UpdateOrderItemUnitPrice | src/orders/orders.service.ts:1901-1922 | the row is the price function of the old one; on which invoices and orders it acts, and how, is `InvoiceEdits.EditsExactlyWhen` |
| InvoiceLifecycle.OrderTable.AddOrderExtra | src/orders/orders.service.ts:1938-1954 | the row is the extra-adding function of the old one; on which invoices and orders it acts, and how, is `InvoiceEdits.EditsExactlyWhen` |
| InvoiceLifecycle.OrderTable.DeleteOrderExtra | src/orders/orders.service.ts:1969-1979 | the row is the extra-deleting function of the old one; on which invoices and orders it acts, and how, is `InvoiceEdits.EditsExactlyWhen` |
| InvoiceLifecycle.OrderTable.UpdateOrderExtra | src/orders/orders.service.ts:1994-2008 | the row is the extra-changing function of the old one; on which invoices and orders it acts, and how, is `InvoiceEdits.EditsExactlyWhen` |
| InvoiceLifecycle.OrderTable.BackfillPrices | src/orders/orders.service.ts:3685-3698 | every missing price becomes the menu price, without a guard |
| InvoiceLifecycle.OrderTable.UpdateOrderGeneral | src/orders/orders.service.ts:2034-2142 | the row is the general update of the old one; what it accepts and changes is `InvoiceEdits.GeneralExactlyWhen` |
| InvoiceGuarantees.MutatorsChangeExactlyWhen | src/orders/orders.service.ts:1053-1067 | of all mutators exactly one changes items, extras, prices or fee of an order whose invoice is accepted or pending: the backfill, when a price is missing |
| InvoiceEdits.EditsExactlyWhen | src/orders/orders.service.ts:1053-1067 | every item and extra mutator does what it promises if and only if the invoice is absent, refused, failed or credit-noted, the order is not finished and the request applies; otherwise nothing changes |
| InvoiceEdits.GeneralExactlyWhen | src/orders/orders.service.ts:2034-2137 | which general updates are accepted for every pair of statuses, and exactly when one changes the delivery or its fee |
| InvoiceEdits.BackfillMeaning | src/orders/orders.service.ts:3685-3698 | the backfill writes the menu price into every line without one and changes nothing else, whatever the statuses |
| InvoiceSteps.IssueExactlyWhen | src/factus/factus.service.ts:281-330 | a call issues if and only if the order has something to bill, is not canceled and has no invoice on record and no credit note; it marks the order pending and sends the document of the order it read |
| InvoiceSteps.IssueReplyExactlyWhen | src/factus/factus.service.ts:346-405 | the reply writes the order that was read with the outcome; only an acceptance puts the document sent on record |
| InvoiceSteps.CancelExactlyWhen | src/orders/orders.service.ts:1085-1206 | for every status: refused, waiting for the credit note, or emptied at once |
| InvoiceSteps.NoteExactlyWhen | src/factus/factus.service.ts:442-476 | a credit note is asked for if and only if an invoice is on record, and repeats the order as it is |
| InvoiceSteps.NoteReplyExactlyWhen | src/factus/factus.service.ts:495-512 | the order that was read is written back, credit-noted if accepted, and emptied if the call may cancel it |
| InvoiceSteps.QueryExactlyWhen | src/factus/factus.service.ts:2080-2099 | a query starts if and only if the invoice is not accepted |
| InvoiceSteps.QueryReplyExactlyWhen | src/factus/factus.service.ts:2160-2173 | its reply writes the columns that were read with what was found, and keeps lines and extras |
| InvoiceSteps.MailExactlyWhen | src/factus/factus.service.ts:421-432 | a mail starts if and only if the invoice is accepted or credit-noted and has a number; its reply writes the columns that were read |
| InvoiceSteps.StrayReplyChangesNothing | src/factus/factus.service.ts:346-405 | a reply that no call of its kind waits for changes nothing |
| InvoiceGuarantees.BackfillKeepsDocument | src/orders/orders.service.ts:3685-3698 | the backfill changes no document |
| InvoiceGuarantees.FrozenForEverExactlyWhen | src/factus/factus.service.ts:281-407 | an accepted invoice and its content are frozen in every continuation without an accepted or skipped credit note if and only if all items store their price and no waiting call holds a copy with another invoice or content |
| InvoiceGuarantees.InvoiceEndsExactlyWhen | src/factus/factus.service.ts:346-405 | one step: an accepted invoice ends if and only if its credit note is accepted or a waiting call saves a copy that is not of an accepted invoice |
| InvoiceGuarantees.CanceledForEverExactlyWhen | src/orders/orders.service.ts:1251-1255 | a canceled order stays canceled in every continuation if and only if no waiting call read it before |
| InvoiceGuarantees.CancelWhilePending | src/factus/factus.service.ts:346-359 | a cancellation while an issue waits is undone by its reply, lines and extras included |
| InvoiceGuarantees.TwoIssuesWait | src/factus/factus.service.ts:288-322 | example of `FrozenForEverExactlyWhen`: two issues can wait at once |
| InvoiceGuarantees.SecondIssueOverwrites | src/factus/factus.service.ts:395-405 | example of `FrozenForEverExactlyWhen`: then the failure of one replaces the acceptance of the other |
| InvoiceGuarantees.StaleQueryOverwrites | src/factus/factus.service.ts:2104-2110 | example of `FrozenForEverExactlyWhen`: a query that read the pending order takes the acceptance back when it finds nothing |
| InvoiceGuarantees.RefusedNoteOverwrites | src/factus/factus.service.ts:495-500 | example of `FrozenForEverExactlyWhen`: a refused second credit note takes the first one back |
| InvoiceCredits.SettlingStep | src/factus/factus.service.ts:346-361 | one step: after a step that settles order and invoice (accepting reply or query, refused note, mail, skipped note, menu change) the two agree if and only if it is not one that parts them |
| InvoiceCredits.OtherStep | src/orders/orders.service.ts:1053-1067 | one step: no other step, content mutators included, makes an order invoiced or changes whether it makes the invoice on record |
| InvoiceCredits.RunMatchesExactlyWhen | src/factus/factus.service.ts:281-407 | at every moment of every run an invoiced order makes the invoice on record if and only if the last settling step did not part them |
| InvoiceCredits.NoteDiffersExactlyWhen | src/factus/factus-invoice.mapper.ts:277-300 | in every run a credit note differs from the invoice on record if and only if the last settling step before it parted them |
| InvoiceCredits.NotesRepeatExactlyWhen | src/factus/factus-invoice.mapper.ts:277-300 | in every run all credit notes repeat the invoice on record if and only if none is built while they are parted |
| RegularInvoices.RegularParts | src/factus/factus.service.ts:346-359 | with stored prices and unrenamed products an accepted issue and a menu change never part them; only a query that records a document of other content, a refused note or a mail whose copy is of another document, and a skipped note can |
| RegularInvoices.RunRegular | src/factus/factus.service.ts:319-337 | over every run with stored prices and unrenamed products what a waiting issue or note sent is what its copy still makes |
| RegularInvoices.RegularNoteDiffersExactlyWhen | src/factus/factus.service.ts:442-512 | in such a run a credit note differs from the invoice on record if and only if one of those three steps happened before it and nothing settled the two since |
| RegularInvoices.SkippingParts | src/orders/orders.service.ts:1119-1123 | skipping the note of an agreeing order that bills more than its delivery always parts them |
| RegularInvoices.RefusedNotePartsExactlyWhen | src/factus/factus.service.ts:495-500 | a refused note that was right when built parts them if and only if another document was recorded since |
| RegularInvoices.MailPartsExactlyWhen | src/factus/factus.service.ts:421-432 | a mail parts an agreeing order from its invoice if and only if the columns it read bill another delivery |
| RegularInvoices.UnpartedNotesRepeat | src/factus/factus-invoice.mapper.ts:295-300 | such a run without any of the three makes no wrong credit note |
| RegularInvoices.MenuDoesNotMatter | src/factus/factus-invoice.mapper.ts:504-507 | with stored prices, new menu prices do not change the document of an old order |
| RegularInvoices.FrozenNoteRepeatsInvoice | src/factus/factus-invoice.mapper.ts:295-300 | every credit note of a frozen, recorded invoice is built against it and has its lines and total, whatever the menu prices become |
| RegularInvoices.IssuedNoteRepeatsInvoice | src/factus/factus-invoice.mapper.ts:93-104 | from issue to credit note: if the accepted reply leaves no call waiting with another version, every credit note until the invoice ends is the document that was sent |
| RegularInvoices.QueryRecordsWhatItFinds | src/factus/factus.service.ts:2160-2173 | a query of an order that is not accepted, credit-noted ones included, records the document it finds; the order makes that invoice if and only if it was not edited to another one |
| BulkSelect.FloorShares | src/factus/factus-bulk-select.util.ts:50-58 | each amount is its weight's share floored to a hundred, non-negative, together at most the total |
| BulkSelect.ShareFollowsWeight | src/factus/factus-bulk-select.util.ts:56 | a share is the one whole hundred within a hundred of its weight's part of the total |
| BulkSelect.CoveredTogether | src/factus/factus-bulk-select.util.ts:55-57 | shares that are each covered by their weight are covered together |
| BulkSelect.RichestCanGive | src/factus/factus-bulk-select.util.ts:60-66 | with 10,000 per invoice the largest amount is at least twice the minimum |
| BulkSelect.LevelStep | src/factus/factus-bulk-select.util.ts:62-72 | an amount below the minimum is raised to it by a richest other exactly when that one stays at the minimum |
| BulkSelect.LevelledKeeps | src/factus/factus-bulk-select.util.ts:60-73 | a step keeps the sum, non-negativity and every amount already level, and succeeds with 10,000 per invoice |
| BulkSelect.SplitUnevenTargets | src/factus/factus-bulk-select.util.ts:45-78 | for every choice of weights, non-negative amounts adding up to exactly the total, each at least the minimum once the total reaches 10,000 per invoice |
| BulkSelect.AddLine | src/factus/factus-bulk-select.util.ts:80-102 | one more unit of this product and of no other, one line per product, every line priced by the catalogue |
| BulkSelect.Shuffle | src/factus/factus-bulk-select.util.ts:124-128 | any sequence of swaps keeps the products |
| BulkSelect.PickOne | src/factus/factus-bulk-select.util.ts:140-144 | a fitting product, and one that leaves no impossible remainder whenever there is one |
| BulkSelect.RemnantExactlyWhen | src/factus/factus-bulk-select.util.ts:142 | a remainder is possible if and only if another product still fits or what is missing is within the overshoot |
| BulkSelect.OvershootMeaning | src/factus/factus-bulk-select.util.ts:132 | the overshoot is six percent of the target in whole pesos, at least 3,000 |
| BulkSelect.NextPick | src/factus/factus-bulk-select.util.ts:135-155 | stops only when nothing fits; never overshoots a started invoice; a first pick overshoots only by the allowance or is the cheapest |
| BulkSelect.FillInvoiceFromCatalog | src/factus/factus-bulk-select.util.ts:108-174 | lines of catalogue products only; the sum exceeds target minus cheapest (or 800 picks are used up) and stays within the overshoot, unless no product fits and the invoice is one cheapest unit |
| BulkSelect.PlannedBounds | src/factus/factus-bulk-select.util.ts:182-189 | bounds of the parts add up to bounds of the plan |
| BulkSelect.PlanBulkInvoices | src/factus/factus-bulk-select.util.ts:176-190 | one numbered invoice per target, targets adding up to the total, and the planned sum between total minus n times cheapest (exclusive) and total plus all overshoots |
| TableGroups.TableDesk.FindSeat | src/orders/orders.service.ts:2295-2301 | the newest active order of a table |
| TableGroups.TableDesk.Resolve | src/orders/orders.service.ts:2264-2307 | the orders a request joins, and none exactly when the source rejects it |
| TableGroups.TableDesk.LinkTables | src/orders/orders.service.ts:2309-2311 | joined orders and all orders of their groups end in one group, nothing else changes |
| TableGroups.TableDesk.MinOf | src/orders/orders.service.ts:2439 | the smallest group id |
| TableGroups.TableDesk.UnlinkTable | src/orders/orders.service.ts:2339-2361 | the orders are the unlinking function of the old ones, whose effect on every order is `UnlinkChanges` |
| TableGroups.TableDesk.CancelOrder | src/orders/orders.service.ts:2393-2424 | the orders are the cancelling function of the old ones, whose effect on every order is `CancelChanges` |
| TableGroups.TableDesk.CompleteOrder | src/orders/orders.service.ts:2034-2061 | a linked table completes with its group |
| TableGroups.SeatExactlyWhen | src/orders/orders.service.ts:2295-2301 | the seat of a table is its active order with the largest id |
| TableGroups.JoinedExactlyWhen | src/orders/orders.service.ts:2264-2307 | a link is accepted if and only if an active table order names another table and each one it names has an active order; it joins exactly the newest of each |
| TableGroups.LinkChanges | src/orders/orders.service.ts:2309-2311 | the joined orders and their group mates get the smallest of their groups, or the new one; nothing else changes |
| TableGroups.UnlinkChanges | src/orders/orders.service.ts:2339-2361 | the order loses its group, and its mates lose theirs if and only if at most one active order remains; every other record is as before |
| TableGroups.CancelChanges | src/orders/orders.service.ts:2393-2424 | the same for a cancellation, which also closes the order |
| TableGroups.CompleteChanges | src/orders/orders.service.ts:2037-2061 | the order and its group are closed and lose the group; every other record is as before |
| TableGroups.LinkReflects | src/orders/orders.service.ts:2426-2449 | one link request extends groups exactly as it extends connectivity |
| TableGroups.LinkedTablesAreConnected | src/orders/orders.service.ts:2264-2311 | after any run of link requests two orders share a group if and only if the requests connect them |
| TableGroups.LinkSound | src/orders/orders.service.ts:2264-2311 | linking never makes a group of one |
| TableGroups.LeaveSound | src/orders/orders.service.ts:2349-2361 | leaving never leaves a group of one |
| TableGroups.CompleteIsExact | src/orders/orders.service.ts:2045-2061 | completing an order completes exactly the orders of its group, or only itself |
| TableGroups.NoLonelyGroup | src/orders/orders.service.ts:2187-2370 | over any run of opening, moving, linking, unlinking, cancelling and completing, a group in use has at least two active orders |
| CartAssertions.Assignment.Assign | scripts/whatsapp-beta-cart-assertions.ts:48-57 | true exactly when the remaining lists can be given distinct unused indices; on failure the used set is as before |
| CartAssertions.RowOrderIrrelevant | scripts/whatsapp-beta-cart-assertions.ts:46 | reordering the candidate lists does not change solvability |
| CartAssertions.SortByLength | scripts/whatsapp-beta-cart-assertions.ts:46 | shortest list first, the same lists |
| CartAssertions.CandidateRow | scripts/whatsapp-beta-cart-assertions.ts:40-46 | exactly the indices of the lines that fit |
| CartAssertions.FitsExactlyWhen | scripts/whatsapp-beta-cart-assertions.ts:40-46 | a line fits if and only if product and quantity are equal, it has all wanted attributes, and its note contains every wanted text and no forbidden one |
| CartAssertions.MatchesExpectedCartLines | scripts/whatsapp-beta-cart-assertions.ts:38-59 | true if and only if a one-to-one assignment of fitting lines exists |
| CartAssertions.CartLinesFromOrderItems | scripts/whatsapp-beta-cart-assertions.ts:17-34 | an answer exactly for well-formed items, with one line per key holding all its units |
| CartAssertions.WellFormedExactlyWhen | scripts/whatsapp-beta-cart-assertions.ts:21-25 | an item is readable if and only if it passes the type checks and counts something |
| CartAssertions.QuantityIsRepetition | scripts/whatsapp-beta-cart-assertions.ts:16-31 | an item of quantity q counts like q items without a quantity |
| CartAssertions.UpsertGrouped | scripts/whatsapp-beta-cart-assertions.ts:28-31 | one more item keeps the grouping exact |
| CartAssertions.ItemOrderIrrelevant | scripts/whatsapp-beta-cart-assertions.ts:17-59 | permuting the order items changes neither whether the cart is readable nor whether it matches |
| DescribedSide.DistanceOneAtMismatch | src/whatsapp/whatsapp-described-side.ts:14 | at the first differing character, distance 1 means exactly that one substitution, deletion or insertion makes the rest equal |
| DescribedSide.OneEdit | src/whatsapp/whatsapp-described-side.ts:11-16 | true if and only if both words have at least four characters and recursive Levenshtein distance exactly 1 |
| DescribedSide.IsNearMiss | src/whatsapp/whatsapp-described-side.ts:17 | true if and only if the first words are equal and exactly one word differs, by one edit |
| DescribedSide.Windows | src/whatsapp/whatsapp-described-side.ts:8 | exactly the windows of the description |
| DescribedSide.DistinctTexts | src/whatsapp/whatsapp-described-side.ts:17-18 | one distinct text means one distinct window |
| DescribedSide.ResolveDescribedSidePhrase | src/whatsapp/whatsapp-described-side.ts:4-19 | exact windows answer as said; a fuzzy answer exists if and only if one distinct window is a near miss, and is that window |
| CombinedOptions.CandidatesMeaning | src/whatsapp/whatsapp-combined-options.ts:10-13 | the candidates of a part are exactly the options it spells, with the attribute they belong to |
| CombinedOptions.TargetExactlyWhen | src/whatsapp/whatsapp-combined-options.ts:10-14 | a part stands for an option if and only if it spells that one and no other of any attribute, counted with repetition |
| CombinedOptions.CompleteExactlyWhen | src/whatsapp/whatsapp-combined-options.ts:4-15 | the text is answered if and only if it has 2 to 8 attributes and as many parts, each standing for one option, of different attributes |
| CombinedOptions.Select | src/whatsapp/whatsapp-combined-options.ts:8-16 | a selection exists exactly when every part stands for one option and no attribute is chosen twice |
| CombinedOptions.EveryAttributeSelected | src/whatsapp/whatsapp-combined-options.ts:17 | as many distinct choices as attributes leave none out, and each is an own option: the non-null assertion is justified |
| CombinedOptions.ParseCombinedOptions | src/whatsapp/whatsapp-combined-options.ts:2-18 | an answer exactly for complete parts, with one own option per attribute in attribute order |
| CombinedOptions.OrderOfPartsIrrelevant | src/whatsapp/whatsapp-combined-options.ts:9-17 | permuting the parts gives the same answer, and there is only one |
| CsvExport.Export | src/factus/factus.service.ts:1380-1415 | the text is the printed table |
| CsvExport.RoundTrip | src/factus/factus.service.ts:1373-1415 | reading the text gives back every cell of every row if and only if the last of several rows is not a single empty cell |
| CsvExport.LastEmptyRowIsLost | src/factus/factus.service.ts:1415 | such a last row is the only thing lost |
| CsvExport.ExportRoundTrip | src/factus/factus.service.ts:1348-1415 | the export, header and rows of 22 cells, is always read back exactly |

## Left out

- Floating point: amounts are integer cents, tax rates hundredths of a percent, rounding is exact half-up (the epsilon of `factusRound2` is there to make halves go up), weights are reals.
- Regular expressions and text normalisation: tokens, split parts and trimmed table names are inputs, and lower-casing and accent stripping is a function parameter.
- HTTP, authentication, mail, websockets, points and vouchers, opening hours, delivery tiers, print jobs, SQL text and object mapping: only transactions, locks, unique keys and guarded updates remain, as atomic steps.
- InventoryConservation.RunConservesExactlyWhen: the item mutators are serial, because they take no order lock; of concurrent operations only racing cancellations and late saves of an earlier version are covered. The product configuration does not change during a run.
- InventoryCounts.BuildInventoryCountByKey: also-deduct targets are those of the entries in use; a configured target that its product never reads is loaded by the source too, and never read either.
- InventoryLedger.StockRoom.Decrement: the three stock tables are one map by key, quantities are integers in the smallest unit; a missing product, group or variant row is a missing key. Attribute names have no colon here; `StockKeys` says what one does.
- InventoryLedger.OrdersService.CreateOrder: inactive or unknown products, prices, points, delivery fee and redemption codes; extras are a number.
- InventoryConservation.UntrimmedAttributeBreaksConservation: trimming knows space, tab and the two line ends, not every Unicode space.
- StockKeys.DispatchUndoesRender: `Number` of a text that is not digits is 0 here instead of not-a-number; only texts with a colon in an attribute name reach it.
- OrderProtocol.DailyNumbersCover: no day changes while a creator holds its lock; MAX reads committed rows. The in-memory map of creations in flight and the soft duplicate check by fingerprint only avoid work and are not modelled.
- OrderProtocol.ApplySafe: `create` and `handleWebhook` appear as the steps of a state machine and not as class methods, since other processes act between their statements.
- PaymentLinks.RowNamesItsOrder: one way, under the condition that no row meets two payment ids; `RowShowsLinkerExactlyWhen` is the exact form.
- BoldReceipts.Confluence: signature check and parsing of the body; payer data, dates and method; the currency is always COP.
- BoldAttempts.AttemptsAreBacked: request keys, QR images, expiry times and the ten-second pause between checks; `create` and `refresh` are steps of a state machine because their saves interleave.
- InvoiceMapper.BuildDocument: customer, references, dates, payment method, and the cut of names to 200 characters.
- RegularInvoices.IssuedNoteRepeatsInvoice: the tax configuration does not change, and menu changes keep product names and codes; a change of those reaches the credit note, as `RunMatchesExactlyWhen` says for all runs.
- InvoiceLifecycle.OrderTable.CancelOrderFully: each call that only uses the database is one event, and so are the first reads of a call and the start of its remote call; two such calls between whose statements another one acts are not covered. Stock, table groups and points are elsewhere or not modelled.
- InvoiceLifecycle.OrderTable.UpdateOrderItemUnitPrice: missing products, inactive products and refused stock are requests that do not happen; address, name, phone and printing carry no invoice content.
- BulkSelect.FillInvoiceFromCatalog: ids are unique, as the primary key makes them; prices are already whole; default attributes are not carried.
- BulkSelect.PlanBulkInvoices: the deviation ratio, the tolerance flag and the message text.
- TableGroups.LinkedTablesAreConnected: all orders are of one day, and the clock value used as a new group id is not in use.
- TableGroups.NoLonelyGroup: the order type of an order never changes; a table change appears as changes of one or two table names.
- CartAssertions.CartLinesFromOrderItems: the JSON text of the grouping key is its three parts, and the locale-aware sort of attributes is a function parameter.
- CombinedOptions.ParseCombinedOptions: the length limit of 400, the question-mark check and the splitting itself.
- CsvExport.Export: the query, the paging and the file name; the constant header has no cell that needs quoting.
- Delivery distances, usage counters, role checks and sales histograms: easy, or with no clear specification.
