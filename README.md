# ChainFlow console and dashboard — a Dafny model

This project models the logic of two UI layers and proves properties about it.

The first layer is the point-of-sale worker console:
- the cart (`currentSale`): adding, merging and removing lines, the discount, and the subtotal, discount and total;
- `completeSale`: the receipt number, the stock writes, the transaction insert, the counter increment and the cart reset;
- worker shifts and `formatDuration`;
- the worker balance.

The second layer is the mobile dashboard:
- the notification read list and unread count;
- transaction filtering and the `transaction-<id>` screen names;
- the navigation handlers;
- the bulk-payout wizard;
- the payment-link form.

Modules, one per core file or shared concern:

- `PosSale` (`pos_sale.dfy`) — the cart.
  - The cart is a `class Sale` whose fields the operations overwrite in place.
  - `Valid()` is its invariant: at most one line per (id, type), every line's subtotal equals quantity × price, and the totals are recomputed.
  - The line operations are functions on sequences (`AddLine`, `RemoveAt`). The methods are proved against them.
- `PosShifts` (`pos_shifts.dfy`) — the shift table as a sequence of rows, `startShift`, `endShift` and `formatDuration`.
- `PosCheckout` (`pos_checkout.dfy`) — the backend tables as one value (`Backend`), `completeSale` (`Checkout`, and the method `CompleteSale` on the cart object), and the worker balance.
- `BulkPayout` (`bulk_payout.dfy`) — totals, list editing and validation as functions, and the wizard's `step`/`recipients`/`errors` state as `class Wizard`.
- `Dashboard` (`dashboard.dfy`) — the dashboard's state as a record, and each handler as a function on it.
- `PaymentLink` (`payment_link.dfy`) — the dynamically keyed form record, the method toggle, and the link strings.
- `JsText` (`js_text.dfy`) and `Seqs` (`seqs.dfy`) — the JavaScript primitives the code relies on:
  - `String(n)`, `padStart`, `startsWith`, `includes` and `split`;
  - `substr`, which lives in `PaymentLink`;
  - `parseInt` with its white-space skipping, sign, `0x` prefix and longest-digit-prefix rule;
  - `Array.prototype.filter`, which lives in `Seqs`.

Modelling choices:
- Money is `real`, so sums are exact.
- Stock, quantities, the receipt counter and times (in milliseconds) are `int`.
- Every backend call can fail. Which call fails is a parameter: `Fault` for `completeSale`, and a boolean per call for the shift operations.
- The random parts are parameters: the bulk-payout outcome is the set of succeeding row positions, and the payment-link id takes the random string.

Where the code and its design description disagree, the model follows the code:
- `completeSale` does not check stock. A sale can drive a row below zero (`NoStockFloor`).
- Nothing in `completeSale` is atomic or rolled back:
  - stock written before a failing call stays written;
  - a transaction inserted before a failing counter update stays inserted, so the next sale reuses its receipt number (`DuplicateReceiptAfterIncrementFailure`);
  - `printReceipt` runs after the insert and the counter update. If it throws (the receipt window cannot be opened), the sale is recorded and the counter stored, but the cart is not reset, so pressing the button again records the same cart a second time (`PrintFailureRecordsTwice`).
- The counter is read without a filter (`.single()` on the whole table), but the update is filtered on `id = 1`. When the one counter row has another id, the update matches nothing and reports no error, so every sale gets the same receipt number (`UnmatchedCounterRowRepeats`). `Backend.counterId` is that row's id.
- The new stock comes from the worker's cached product list, not from the database row.
- A percentage discount is not capped, and the total is not clamped (`NegativeTotalPossible`).
- `startShift` treats a failed or ambiguous read like "no active shift". A failed read therefore opens a second active shift (`StartShiftReadFailure`).

## Model

Source paths are relative to the repository root.

| member | source | states |
|---|---|---|
| PosSale.FindLine | public/pos-supabase-integration.js:567 | the index found is the first line with the same id and type; none means no line has them |
| PosSale.AddLine | public/pos-supabase-integration.js:566-586 | the lines after `addToSale`: the found product line bumped, a found service left alone, or a new line appended (its properties are the lemmas below) |
| PosSale.AddExistingProduct | public/pos-supabase-integration.js:567-573 | adding a product already in the cart raises that line's quantity by one, sets its subtotal to the new quantity × price, and leaves every other line alone |
| PosSale.AddExistingService | public/pos-supabase-integration.js:567-573 | adding a service already in the cart leaves the lines unchanged |
| PosSale.AddAbsent | public/pos-supabase-integration.js:574-583 | an item not yet in the cart is appended as one line with quantity 1 and subtotal equal to its price |
| PosSale.BumpAddsPrice | public/pos-supabase-integration.js:571-572 | the increment keeps quantity × price consistent and raises the line subtotal by one unit price |
| PosSale.AddLinePreservesInvariant | public/pos-supabase-integration.js:566-586 | adding keeps at most one line per (id, type) and every line subtotal equal to quantity × price |
| PosSale.RemoveAt | public/pos-supabase-integration.js:588-591 | `splice(index, 1)`: lines before the index stay, later lines shift down by one, an index past the end changes nothing |
| PosSale.RemovePreservesInvariant | public/pos-supabase-integration.js:588-591 | removing keeps unique keys and consistent line subtotals |
| PosSale.AddLineSubtotal | public/pos-supabase-integration.js:566-586 | adding raises the cart subtotal by the item's price (new line) or the line's unit price (existing product), and by nothing for an existing service |
| PosSale.RemoveAtSubtotal | public/pos-supabase-integration.js:588-591 | removing a line lowers the cart subtotal by exactly that line's subtotal |
| PosSale.Subtotal | public/pos-supabase-integration.js:599-616 | the sum of the line subtotals in order; `SubtotalAppend` and `RemoveAtSubtotal` relate it across edits |
| PosSale.DiscountAmount | public/pos-supabase-integration.js:618-627 | a percentage discount is subtotal × value / 100, a flat one its value, and no discount 0 |
| PosSale.TotalsConsistent | public/pos-supabase-integration.js:599-629 | the totals as `updateSaleDisplay` leaves them: the subtotal is the line sum, the discount amount follows the discount, the total is their difference |
| PosSale.NoDiscountTotal | public/pos-supabase-integration.js:618-629 | without a discount the discount amount is 0 and the total equals the subtotal |
| PosSale.NegativeTotalPossible | public/pos-supabase-integration.js:629 | a consistent cart can have a negative total, since the total is not clamped |
| PosSale.WorkedExample | public/pos-supabase-integration.js:599-629 | two units at 500 plus a service at 1500 with a flat 200 discount give subtotal 2500, discount 200 and total 2300 |
| PosSale.Sale.constructor | public/pos-supabase-integration.js:564 | the cart starts empty with zero totals and no discount, and satisfies the invariant |
| PosSale.Sale.UpdateSaleDisplay | public/pos-supabase-integration.js:593-634 | the accumulation loop leaves the subtotal equal to the sum of the line subtotals, applies the percentage or flat discount, sets total = subtotal − discount amount, and leaves the lines and the discount unchanged |
| PosSale.Sale.AddToSale | public/pos-supabase-integration.js:566-586 | the lines become `AddLine` of the old lines, the discount is kept, and the invariant holds |
| PosSale.Sale.RemoveFromSale | public/pos-supabase-integration.js:588-591 | the lines become `RemoveAt` of the old lines, the discount is kept, and the invariant holds |
| PosSale.Sale.ApplyDiscount | public/pos-supabase-integration.js:636-647 | a value that did not parse, or a negative value, leaves the whole cart unchanged; otherwise the discount is set to that kind and value and the totals are recomputed |
| PosSale.Sale.ClearDiscount | public/pos-supabase-integration.js:649-653 | the discount is removed, the discount amount is 0 and the total equals the subtotal |
| PosSale.Sale.Reset | public/pos-supabase-integration.js:723-727 | after a completed sale the cart is empty with zero totals and no discount |
| PosShifts.ActiveShifts | public/pos-supabase-integration.js:974-979 | exactly the positions of the worker's active shifts, in increasing order |
| PosShifts.SingleActive | public/pos-supabase-integration.js:974-979 | a row `.single()` returns is an active shift of the worker (none when the read fails or zero or several rows match) |
| PosShifts.SingleActiveIff | public/pos-supabase-integration.js:974-984 | when no worker has two active shifts, a successful read finds a shift exactly when the worker has an active one |
| PosShifts.StartShift | public/pos-supabase-integration.js:971-1002 | refuses while the worker's active shift is visible, reports a failed insert, and otherwise appends an active shift starting now (its properties are the lemmas below) |
| PosShifts.StartShiftSpec | public/pos-supabase-integration.js:971-1002 | when the read and the insert succeed and no worker has two active shifts: `startShift` refuses exactly when the worker has an active shift and then changes nothing; otherwise it starts, appending one active shift starting now (a failed read behaves differently, see `StartShiftReadFailure`) |
| PosShifts.StartShiftKeepsInvariant | public/pos-supabase-integration.js:971-996 | after a successful read, starting a shift keeps every worker at no more than one active shift |
| PosShifts.StartShiftReadFailure | public/pos-supabase-integration.js:974-984 | when the read fails, `startShift` opens a second active shift for a worker who already has one |
| PosShifts.EndShift | public/pos-supabase-integration.js:1004-1039 | closes the visible active shift with end time now and duration now − start, or reports that none is visible or that the update failed |
| PosShifts.EndShiftSpec | public/pos-supabase-integration.js:1004-1039 | when the read and the update succeed and no worker has two active shifts: `endShift` reports no active shift exactly when there is none; otherwise it ends, closing that shift with end time now and duration now − start, leaves the other rows alone, and leaves the worker with no active shift |
| PosShifts.EndShiftKeepsInvariant | public/pos-supabase-integration.js:1022-1029 | ending a shift, whatever fails, keeps every worker at no more than one active shift |
| PosShifts.JsRem | public/pos-supabase-integration.js:1071 | JavaScript `%`: the remainder has the dividend's sign and is smaller than the divisor in magnitude |
| PosShifts.DurationParts | public/pos-supabase-integration.js:1069-1073 | for a non-negative duration: minutes in 0..59, and whole hours and minutes bracket the milliseconds to within one minute; for a negative one: negative hours and minutes between −60 and 0 |
| PosShifts.FormatDuration | public/pos-supabase-integration.js:1069-1073 | the hours, "h ", the minutes and "m" (its properties are `DurationParts` and `FormatDurationReadsBack`) |
| PosShifts.FormatDurationReadsBack | public/pos-supabase-integration.js:1069-1073 | the text splits at its one space into two pieces whose `parseInt` values are the hours and the minutes |
| PosShifts.NegativeDurationText | public/pos-supabase-integration.js:1069-1073 | a duration of −1 ms prints as "-1h -1m" |
| PosCheckout.Receipt | public/pos-supabase-integration.js:674 | `RCP${String(counter).padStart(6, '0')}`: "RCP" and the counter's decimal digits padded with zeros to six (its properties are `ReceiptFormat` and `ReceiptInjective`) |
| PosCheckout.ReceiptFormat | public/pos-supabase-integration.js:674 | the receipt is "RCP" followed by the counter's digits zero-padded to at least six (never truncated), and those digits read back as the counter |
| PosCheckout.ReceiptInjective | public/pos-supabase-integration.js:674 | distinct non-negative counters give distinct receipt numbers |
| PosCheckout.SetStock | public/pos-supabase-integration.js:682-685 | `update(...).eq('id', id)` writes the value for an existing row and leaves the table alone otherwise |
| PosCheckout.WriteLine | public/pos-supabase-integration.js:678-687 | one loop pass: a service changes nothing; a product missing from the cache or a failed write stops the loop; otherwise the row becomes cached stock − quantity |
| PosCheckout.StockWrites | public/pos-supabase-integration.js:677-689 | the loop after its first n lines, stopping at the first exception (its properties are `AbortSticks`, `AbortStage` and `StockWritesEffect`) |
| PosCheckout.WriteStockLoop | public/pos-supabase-integration.js:677-689 | the loop's final state (the writes so far, and where it stopped) is the line-by-line specification `StockWrites` over all lines |
| PosCheckout.AbortSticks | public/pos-supabase-integration.js:677-689 | once an exception has stopped the loop, later lines change nothing |
| PosCheckout.AbortStage | public/pos-supabase-integration.js:677-689 | the loop stops only on a product missing from the cache or a failed stock write |
| PosCheckout.StockWritesEffect | public/pos-supabase-integration.js:677-689 | with every product cached and no write failing, each product line's row ends at cached stock − quantity, every other row is unchanged, and no row is added |
| PosCheckout.ServicesLeaveStock | public/pos-supabase-integration.js:677-689 | a sale of services only leaves the stock exactly as it was |
| PosCheckout.CustomerOf | public/pos-supabase-integration.js:703-706 | a customer record when a name or a phone was typed, none otherwise |
| PosCheckout.TransactionOf | public/pos-supabase-integration.js:692-707 | the inserted record: worker, receipt, the cart's items and totals, the payment mode and the customer |
| PosCheckout.BumpCounter | public/pos-supabase-integration.js:712-715 | the counter becomes the read value + 1 when the counter row has id 1; otherwise nothing changes; no other table changes |
| PosCheckout.Checkout | public/pos-supabase-integration.js:655-736 | `completeSale` on the backend tables, step by step with a fault parameter (its properties are the lemmas below) |
| PosCheckout.CheckoutEmpty | public/pos-supabase-integration.js:656-659 | an empty cart changes no table |
| PosCheckout.CheckoutEffects | public/pos-supabase-integration.js:655-736 | the counter rises by one exactly when its update ran and the counter row has id 1, and the row id is kept; one transaction carrying the counter's receipt is appended exactly when the insert ran; expenditures and shifts are never touched; the sale is reported empty exactly when the cart is |
| PosCheckout.CheckoutSuccess | public/pos-supabase-integration.js:655-736 | with cached products and no failure the sale completes with the counter's receipt, the counter rises by one (when its row has id 1), one transaction is appended, and the stock is updated line by line |
| PosCheckout.NoStockFloor | public/pos-supabase-integration.js:679-685 | selling 3 units of a product with cached stock 1 leaves stock −2 |
| PosCheckout.DuplicateReceiptAfterIncrementFailure | public/pos-supabase-integration.js:691-717 | when only the counter update fails, the transaction is recorded under the counter's receipt and the next successful sale is issued the same receipt |
| PosCheckout.UnmatchedCounterRowRepeats | public/pos-supabase-integration.js:667-715 | when the counter row's id is not 1, two successive successful sales are both issued the receipt of the counter that was read |
| PosCheckout.PrintFailureCommits | public/pos-supabase-integration.js:711-720 | a failing `printReceipt` leaves every table exactly as a completed sale does, and reports the print failure |
| PosCheckout.PrintFailureRecordsTwice | public/pos-supabase-integration.js:691-727 | after a print failure the counter has risen by one, and completing the same cart again appends a second copy of the sale under the next receipt |
| PosCheckout.SameWritesWithoutStockFault | public/pos-supabase-integration.js:677-689 | a failure outside the loop does not change what the loop writes |
| PosCheckout.CompleteSale | public/pos-supabase-integration.js:655-736 | the new tables and the outcome are `Checkout` of the cart before the call; the cart is reset on success and unchanged otherwise, including after a print failure |
| PosCheckout.SalesOf | public/pos-supabase-integration.js:184-194 | the sum of the totals of the worker's transactions |
| PosCheckout.ExpensesOf | public/pos-supabase-integration.js:189-195 | the sum of the amounts of the worker's expenditures |
| PosCheckout.WorkerBalance | public/pos-supabase-integration.js:183-197 | the worker's sales minus the worker's expenses (its properties are `BalanceOfStranger` and `CheckoutBalance`) |
| PosCheckout.BalanceOfStranger | public/pos-supabase-integration.js:183-197 | a worker with no transactions and no expenditures has balance 0 |
| PosCheckout.CheckoutBalance | public/pos-supabase-integration.js:183-197 | once a sale is recorded, the seller's balance rises by the sale total; otherwise it is unchanged; every other worker's balance is unchanged |
| BulkPayout.Blank | src/components/BulkPayoutUI.tsx:48-59 | the empty row with the given id, amount 0, USD, Bank Account, US and status 'pending' |
| BulkPayout.CalculateTotals | src/components/BulkPayoutUI.tsx:37-41 | the total is the sum of the amounts; the fee (0.8% of it) and the net (total plus fee) are stated through `TotalsBounds` and `TotalsAdditive` |
| BulkPayout.TotalsBounds | src/components/BulkPayoutUI.tsx:37-41 | with no negative amount, 0 ≤ fee ≤ total ≤ net |
| BulkPayout.TotalsAdditive | src/components/BulkPayoutUI.tsx:37-41 | totals, fees and nets of two lists together are the sums of their parts |
| BulkPayout.ManualAdd | src/components/BulkPayoutUI.tsx:48-61 | exactly one row is appended, with id = old length + 1, amount 0 and status 'pending'; the old rows are kept |
| BulkPayout.ManualAddTotals | src/components/BulkPayoutUI.tsx:48-61 | a manual add leaves the totals unchanged |
| BulkPayout.ManualAddAfterDeleteRepeatsId | src/components/BulkPayoutUI.tsx:48-65 | adding two rows, deleting id 1 and adding again leaves two rows with id 2 |
| BulkPayout.DeleteRecipient | src/components/BulkPayoutUI.tsx:63-65 | no row with the id remains, every row with another id is kept as often as it occurred, and no row is invented |
| BulkPayout.DeleteKeepsOrder | src/components/BulkPayoutUI.tsx:63-65 | the remaining rows keep their order |
| BulkPayout.ApplyEdit | src/components/BulkPayoutUI.tsx:67-71 | exactly the edited column takes the new value; the id and every other column are unchanged |
| BulkPayout.UpdateRecipient | src/components/BulkPayoutUI.tsx:67-71 | every row with the id gets the edit, and every other row is unchanged |
| BulkPayout.RowErrors | src/components/BulkPayoutUI.tsx:76-78 | a row gets no message exactly when it passes all three checks, and as many messages as checks it fails |
| BulkPayout.RowMessages | src/components/BulkPayoutUI.tsx:76-78 | each check's message is present exactly when that check fails, and every message starts with the row's label |
| BulkPayout.NameErrors | src/components/BulkPayoutUI.tsx:76 | the name message when the name is empty |
| BulkPayout.AmountErrors | src/components/BulkPayoutUI.tsx:77 | the amount message when the amount is not positive |
| BulkPayout.MethodErrors | src/components/BulkPayoutUI.tsx:78 | the method message when the method is empty |
| BulkPayout.ValidationErrors | src/components/BulkPayoutUI.tsx:73-79 | the messages of every row in order, row k labelled "Row k: " (`LabelledErrors` with `RowPrefix`) |
| BulkPayout.ErrorsEmptyIff | src/components/BulkPayoutUI.tsx:73-79 | for any row labels, `ValidationErrors` among them, the error list is empty exactly when every row has a name, a positive amount and a method |
| BulkPayout.ErrorsNameFailingRows | src/components/BulkPayoutUI.tsx:73-79 | every message belongs to a failing row, labelled by its 1-based position |
| BulkPayout.FailingRowsReported | src/components/BulkPayoutUI.tsx:73-79 | every failing row's messages appear in the error list |
| BulkPayout.CollectErrors | src/components/BulkPayoutUI.tsx:74-79 | the `forEach` loop with its pushes builds exactly the row-by-row error list |
| BulkPayout.PushRowErrors | src/components/BulkPayoutUI.tsx:76-78 | one row's pass appends exactly that row's messages to what was collected before |
| BulkPayout.SampleIsValid | src/components/BulkPayoutUI.tsx:29-35 | each of the five demonstration rows passes all three checks, so they yield no errors |
| BulkPayout.Settle | src/components/BulkPayoutUI.tsx:94-97 | every row keeps all its columns but the status, which becomes 'completed' or 'failed' according to its outcome |
| BulkPayout.SettledCounts | src/components/BulkPayoutUI.tsx:583-584 | after processing, every status is 'completed' or 'failed', and the two counts add up to the row count |
| BulkPayout.Wizard.constructor | src/components/BulkPayoutUI.tsx:21-26 | step 1, no rows, no errors |
| BulkPayout.Wizard.UploadSample | src/components/BulkPayoutUI.tsx:43-46 | the rows become the demonstration rows and the step becomes review (2) |
| BulkPayout.Wizard.StartManual | src/components/BulkPayoutUI.tsx:186-200 | the rows become one blank row with id 1 and the step becomes review (2) |
| BulkPayout.Wizard.AddRecipient | src/components/BulkPayoutUI.tsx:48-61 | the rows become `ManualAdd` of the old rows; step and errors unchanged |
| BulkPayout.Wizard.RemoveRecipient | src/components/BulkPayoutUI.tsx:63-65 | the rows become `DeleteRecipient` of the old rows; step and errors unchanged |
| BulkPayout.Wizard.EditRecipient | src/components/BulkPayoutUI.tsx:67-71 | the rows become `UpdateRecipient` of the old rows; step and errors unchanged |
| BulkPayout.Wizard.Submit | src/components/BulkPayoutUI.tsx:73-88 | the stored errors are the validation errors; the step becomes confirm (3) when there are none and is unchanged otherwise; the rows are unchanged |
| BulkPayout.Wizard.BackToUpload | src/components/BulkPayoutUI.tsx:410 | step 1 with the rows and errors kept |
| BulkPayout.Wizard.BackToEdit | src/components/BulkPayoutUI.tsx:551 | step 2 with the rows and errors kept |
| BulkPayout.Wizard.Confirm | src/components/BulkPayoutUI.tsx:90-91 | step 4 with the rows and errors kept |
| BulkPayout.Wizard.FinishProcessing | src/components/BulkPayoutUI.tsx:92-98 | step 5; the rows become their settled form, so completed + failed = row count |
| Dashboard.UnreadCount | src/pages/Index.tsx:32 | the unread count is at most the number of notifications |
| Dashboard.NoneUnreadIff | src/pages/Index.tsx:32 | the unread count is 0 exactly when every notification's id is in the read list |
| Dashboard.MarkAsRead | src/pages/Index.tsx:34-38 | the id is then in the list; the list gains at most that id and keeps its old entries in order; an id already read changes nothing, so marking is idempotent; a list without duplicates stays without |
| Dashboard.MarkAsReadCount | src/pages/Index.tsx:32-38 | marking an unread id lowers the unread count by the number of notifications with that id; a read id leaves it unchanged |
| Dashboard.MarkOneOfThree | src/pages/Index.tsx:26-38 | with the three notifications, the count starts at 3 and marking id 2 leaves 2 |
| Dashboard.MarkAllAsRead | src/pages/Index.tsx:40-42 | the read list becomes the notification ids, in order |
| Dashboard.MarkAllLeavesNoneUnread | src/pages/Index.tsx:32-42 | after marking all as read the unread count is 0 |
| Dashboard.StatusPasses | src/pages/Index.tsx:52-54 | 'All' lets every transaction through, any other filter only an equal status |
| Dashboard.SearchPasses | src/pages/Index.tsx:55-57 | an empty query lets every transaction through, otherwise the amount or the recipient must contain it |
| Dashboard.FilteredTransactions | src/pages/Index.tsx:52-58 | a transaction is shown exactly when it is in the list, its status equals the filter (or the filter is 'All'), and the query is empty or occurs in its amount or its recipient |
| Dashboard.FilteredKeepsOrder | src/pages/Index.tsx:52-58 | the filtered list is a subsequence of the transactions in their order |
| Dashboard.UnfilteredShowsAll | src/pages/Index.tsx:52-58 | with 'All' and an empty query, every transaction is shown in order |
| Dashboard.FindTx | src/pages/Index.tsx:807 | the first transaction with the id, or none exactly when no transaction has it |
| Dashboard.ResolveScreen | src/pages/Index.tsx:877-878 | a name without the "transaction-" prefix renders that screen; a detail page only ever shows a listed transaction |
| Dashboard.LookupId | src/pages/Index.tsx:806-807 | a detail page is shown exactly when the parsed id is a number that some transaction carries, and it shows the first transaction with that id; `NaN` and an unknown id give the not-found page |
| Dashboard.ResolvePrefixed | src/pages/Index.tsx:877-878 | "transaction-" followed by any text resolves as the lookup of `parseInt` of that text up to its next '-' |
| Dashboard.OpenTransaction | src/pages/Index.tsx:592 | a history click sets the screen name to "transaction-" and the id, and nothing else |
| Dashboard.OpenThenResolve | src/pages/Index.tsx:592 | the screen a history click sets shows that transaction, for a non-negative id no other transaction carries |
| Dashboard.NegativeIdNotFound | src/pages/Index.tsx:877-878 | for a negative id the piece after the first '-' is empty, so the page reports the transaction not found |
| Dashboard.HexScreenName | src/pages/Index.tsx:807 | "transaction-0x2" is read as hexadecimal, so it resolves as the lookup of id 2 |
| Dashboard.BottomNav | src/pages/Index.tsx:147-153 | the tab is set, the screen becomes 'main', the menu and the notification panel close, and the read list, search and filter are kept |
| Dashboard.MenuSelect | src/pages/Index.tsx:642-650 | every side-menu entry closes the menu; a tab entry also selects the tab on 'main', a screen entry the screen, and the notifications entry opens the panel |
| PaymentLink.HandleInputChange | src/components/PaymentLinkUI.tsx:36-38 | the field takes the value, every other field is kept, and the only key that can appear is that field |
| PaymentLink.ExpiryDaysBecomesText | src/components/PaymentLinkUI.tsx:36-38 | editing the numeric expiry-days field through its text input replaces the number with a string |
| PaymentLink.ToggleMethod | src/components/PaymentLinkUI.tsx:40-47 | the method becomes present exactly when it was absent; every other method's membership is unchanged; an absent method is appended at the end; a present one has every occurrence filtered out, every other method keeping its count |
| PaymentLink.ToggleTwiceMembership | src/components/PaymentLinkUI.tsx:40-47 | toggling the same method twice restores every method's membership |
| PaymentLink.ToggleTwiceAbsent | src/components/PaymentLinkUI.tsx:40-47 | for a method that was absent, toggling twice gives back exactly the original list |
| PaymentLink.ToggleTwiceReorders | src/components/PaymentLinkUI.tsx:40-47 | for a present method, toggling twice moves it to the end, so the list is not restored: ["card","bank"] becomes ["bank","card"] |
| PaymentLink.TogglePaymentMethod | src/components/PaymentLinkUI.tsx:40-47 | only the methods field changes, and it becomes the toggled list |
| PaymentLink.Substr | src/components/PaymentLinkUI.tsx:50-52 | `substr(start, length)` is a piece of the string starting at the (end-relative when negative) start, no longer than the length |
| PaymentLink.LinkId | src/components/PaymentLinkUI.tsx:50 | the id is "plink_" and at most nine more characters |
| PaymentLink.FullLink | src/components/PaymentLinkUI.tsx:51 | the full base URL followed by the id |
| PaymentLink.ShortLink | src/components/PaymentLinkUI.tsx:52 | the short base URL followed by `substr(-6)` of the id |
| PaymentLink.LinkShapes | src/components/PaymentLinkUI.tsx:50-52 | the full link is the base URL and the whole id; the short link is the short base and exactly the id's last six characters |
| PaymentLink.ShortRandom | src/components/PaymentLinkUI.tsx:50-52 | with a random string of at most two characters, the id is "plink_" and the short link ends in "plink_" |
| PaymentLink.GenerateLink | src/components/PaymentLinkUI.tsx:49-57 | the step becomes 4, the form is kept, the fixed QR image is set, and the short link ends in the full link's last six characters |
| JsText.IntToString | public/pos-supabase-integration.js:674 | `String(n)`: the decimal digits of n, with a leading "-" when n is negative |
| JsText.ParseInt | src/pages/Index.tsx:807 | `parseInt(s)`: skip leading white space, then a signed magnitude (its properties are `ParseIntDigits` and `FormatDurationReadsBack`) |
| JsText.ParseSigned | src/pages/Index.tsx:807 | one optional sign, negating the magnitude for "-", `NaN` when no digit follows |
| JsText.ParseMagnitude | src/pages/Index.tsx:807 | a `0x`/`0X` prefix selects base 16; the longest digit prefix is read; `NaN` when it is empty |
| JsText.TrimStart | src/pages/Index.tsx:807 | what is left after dropping the leading white space, which is all white space; the rest starts with a non-white-space character |
| JsText.Split | src/pages/Index.tsx:878 | `split('-')`: at least one piece, none containing the separator; `SplitJoin` shows joining them back gives the string |
| JsText.SplitJoin | src/pages/Index.tsx:878 | joining the pieces of a split with the separator gives back the original string |
| JsText.Contains | src/pages/Index.tsx:57 | `includes(q)`: q occurs somewhere in the string as a contiguous piece |
| JsText.ParseIntDigits | src/pages/Index.tsx:807 | `parseInt` of a natural number's decimal digits, optionally followed by a non-digit other than 'x', is that number |
| JsText.PadStart | public/pos-supabase-integration.js:674 | the padded string is at least the width long, ends with the original and is filled with the pad character before it |

## Left out

- Every backend call is outside the model: the `supabase.from(...)` queries, the `auth.admin` calls and the serverless function. Their effect on the tables the core uses is the `Backend` value, and their failures are the fault parameters.
- The DOM is left out, and so are `alert`, `prompt` and `confirm`, which are presentation only. What `printReceipt` writes into the receipt window is left out too; that it can throw is modelled (`Fault.Print`).
- `setTimeout`, `setInterval`, `Date.now` and `Math.random` are left out. Times, the random outcome set and the random string are parameters.
- Floating point is left out: `parseFloat`, `toFixed`, `toLocaleString`, and the exchange-rate and fee display on the send screen. Sums are exact reals.
- `Sale.ApplyDiscount` takes the parsed value as `Option<real>`, with `None` for `NaN`. The model does not parse the input text.
- `BulkPayout.ApplyEdit`: the amount field is edited through `parseFloat`, which yields `NaN` for an empty or non-numeric input. The model's amount edit takes a real, so those `NaN` rows are not modelled, and neither are `NaN` totals.
- Concurrency between terminals is left out. The model is one sequential actor, so the unsynchronised read-then-write of the receipt counter and of the stock is not modelled.
- `CompleteSale`: the model has one sequential caller per page. A second `completeSale` started from the same page while the first is still awaiting its backend calls, reusing the same counter read and the same cached stock, is not modelled. Nor are cart edits made while a sale awaits the backend: `addToSale` or `removeFromSale` would change the live `currentSale.items` that the stock loop walks, and the reset afterwards discards them; the model takes the cart as it was when the call began.
- `WorkerBalance`: the source treats a failed read as no rows (`|| []`). The model always reads the tables.
- `CompleteSale` takes the cached product list as a parameter. Refreshing it afterwards (`loadWorkerProducts`) is not modelled.
- `JsText.IntToString`: `String(n)` switches to exponent notation at 10^21, and that form is not modelled. Likewise, `parseInt` loses precision above 2^53, and the model's result is exact.
- `PaymentLink.LinkId` accepts any random string. It does not restrict it to the base-36 form `Math.random().toString(36)` produces.
- `updateShiftDisplay` only renders the shift found by the same query that `startShift` uses, so it is not modelled.
- Also not modelled:
  - the bulk-payout upload-method, schedule and search inputs, which are UI selection state with no logic;
  - the payment-link step buttons and `copyToClipboard`, which only set a step or a transient flag;
  - the dashboard's send-money screen.
- Nothing outside the core files is modelled: worker, product, service, expenditure and submission management, reports, the generated table types and the user-creation function. `src/App.tsx` is not part of this model either.
