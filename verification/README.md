# A verified model of the MenuVex printing and café core

MenuVex sells and prints for cafés: a Windows agent keeps a durable print queue, an offline
desktop application keeps orders, split bills, stock, an outbox and a replica of the server's
catalogue, and a browser SDK hands print jobs to the agent. This project models the parts of that
system where a mistake costs money or paper, and proves what they keep over every run.

The model is 27 Dafny files. Code that updates things step by step is modelled by classes and
methods with loops. A method's contract says in full what it does to the state, and ties it to a
specification function; the laws are proved about those functions and about runs of the state
machines built from them. `dafny verify dfyconfig.toml` checks everything.

| file | what it covers |
|---|---|
| `PrintQueue`, `PrintTransport`, `PrintSystem`, `PrintOutcome` | the agent's job table, its two transports and worker, every run of the whole with crashes, and what a completed job means |
| `SplitBill`, `SplitPayments` | proportional shares of a bill, and the log of partial payments |
| `OrderStatus`, `Tables`, `Stock`, `CafeSystem`, `Cafe` | order states, table pointers, the stock ledger, every run of them together, and the operations that change them |
| `Outbox`, `Replica`, `OfflineStore`, `Sync` | the intent log, the version merge, the store's transactions and the sync client |
| `KitchenRouting`, `KitchenTickets`, `PrintJobs` | categories to printers, tickets per printer, and jobs that are not created twice |
| `Jalali` | Gregorian to Solar Hijri dates |
| `Json`, `Fingerprint`, `PrintClient`, `Routes` | canonical request fingerprints, overlapping print calls, and ownership of a job by one print path |
| `Raster`, `Wrap` | raster stripes in both encoders with a reader, and line wrapping |
| `Prelude`, `Text` | shared datatypes and the text functions used above |

## What the code does not quite promise

Some properties one would expect hold only under a condition, or not at all. The lemmas named show
the failing input or family and the exact condition.

* **Shares overflow.** The product of a line total and the bill total is a 64-bit product. The
  shares add up to the total all the same (`AllocationExact`), but a share is the rounded-down
  proportion exactly when its product is below 2^63 (`ProportionalIffExact`, `OverflowExample`).
* **Lines without units are never collected** (`UnitlessStaysOpen`, `UnitlessExample`). When every
  line with units is paid, the amount collected is the order total exactly when no line without
  units carries a share (`FullyPaidIsTotal`).
* **Status words are compared inconsistently.** The transition test trims and ignores case, the
  effects compare exactly. A status in capitals is final but never takes stock (`CapitalsNever`); a
  padded one lets the recipe be taken twice (`PaddedTwice`, `OrderStatus.RepeatIff`). Either leaves
  the table pointing at an order that is not open, and so does every status that is neither open nor
  one of the two words that free a table, and no other (`StatusKeepsIff`, `SpellingLeavesPointer`).
  A transfer only asks that the order be not closed (`TransferKeepsIff`). Both callers in app.go trim
  the word they pass (app.go:4338-4354 and 4480-4486), so a padded one reaches the store by a direct
  call only.
* **Voiding waste is two transactions.** The quantity comes back if and only if the ingredient is
  live and the void is not cut short between them; the event is marked voided either way, so nothing
  comes back later (`VoidGivesIff`, `VoidLosesExample`).
* **Replica convergence** needs the highest records of an entity to agree, and no more than that
  (`ConvergenceIff`).
* **A bootstrap drops local records.** The comment at store.go:444 says that only server-owned
  entities are replaced; the code starts from an empty store, so a record made on the device
  survives exactly when the snapshot holds its key (`SurvivesIff`), and every stock movement and
  print job goes (`LocalKindsVanish`).
* **A route by title is ambiguous** if several categories share the title: Go's map order then
  decides. Which categories go on which printer's ticket is fixed if and only if the printer of each
  is settled, unrouted ones going to the kitchen station (`ContentsIff`, `SharedTitleSplits`); copies
  too are fixed when each delivery is settled (`TicketsDetermined`), for one category exactly then
  (`OneCategoryIff`).
* **Job deduplication sees 500 jobs.** They are the ones with the lowest identifiers, not the
  newest; a job beyond them is created again on every call (`PrintJobs.RepeatIff`,
  `HiddenIsDuplicated`).
* **Fingerprints** ignore the order of a request's keys if and only if no object of it holds two
  different keys that the locale comparison ties (`CanonicalIff`, `TieKeepsOrder`); with any keys, only
  equal requests share one (`SameTextIff`). `localeCompare` does tie canonically equivalent texts, but
  no such keys reach `print`: client.ts:468 passes a parsed request, whose objects are strict ones with
  fixed ASCII names (types.ts:12-64 and 157-161), and such a request has no ties (`NamesUntied`). Only a direct call
  of `stableStringify` can see tied keys.
* **A page sent again** later, before a bootstrap, changes nothing if and only if each unversioned
  record is still what the page last made of it (`RedeliveryInRun`); a second unversioned page in
  between is enough to be undone (`UnversionedTurnsBack`).
* **A dead spool child** whose exit code happens to be 10 passes for one that could not open the queue;
  this is the only way in which a retryable error can follow a written byte (`SendSpooler`).
* **Raster width** is written in bytes, so a reader recovers it exactly when it is a multiple of
  eight (`EncoderRoundTrip`).
* **Wrapping breaks early.** A line ends at the last break point of its fitting cut if and only if
  the cut is not itself one or has no space inside (`BreakAtIff`); "aa bb cc dd" at five columns
  takes three lines where two would do (`BreaksEarly`).

## Model

| member | source | states |
|---|---|---|
| PrintQueue.BackoffMonotone | legacy-windows/src/core.cpp:513 | the delay never shrinks as attempts grow and stays between 1 and 60 seconds |
| PrintQueue.BackoffDoubles | legacy-windows/src/core.cpp:513 | one second at first, doubled with each attempt, and sixty from the sixth on |
| PrintQueue.Store.constructor | legacy-windows/src/core.cpp:583-591 | reopening fails every job that was printing with the unknown outcome and leaves every other row as it was |
| PrintQueue.Store.Save | legacy-windows/src/core.cpp:600-607 | a configuration is stored exactly when it is valid |
| PrintQueue.Store.Enqueue | legacy-windows/src/core.cpp:628-667 | taken exactly for well-formed identifiers and either the same printer and stored document under a known ID, which changes nothing, or a configured printer and fewer than 256 active jobs, which adds one waiting row at the end with the printer's present settings |
| PrintQueue.Store.Claim | legacy-windows/src/core.cpp:677-697 | takes the first due queued row with no earlier active row of its printer, which then prints with one more attempt and no error, or nothing when there is none |
| PrintQueue.Store.Finish | legacy-windows/src/core.cpp:698-715 | settles exactly a printing job and only its row: completed if and only if there is no error; queued again, after the backoff, exactly for a retryable, certain error below the limit; failed otherwise; the error stored, everything else kept |
| PrintQueue.Store.Cancel | legacy-windows/src/core.cpp:716-729 | accepted exactly for queued and cancelled jobs; only that row changes, to cancelled |
| PrintQueue.Store.Clear | legacy-windows/src/core.cpp:733-757 | keeps exactly the printing rows, in order, reports the queued ones as cancelled, in order, and how many rows are gone |
| PrintQueue.EnqueueKeeps | legacy-windows/src/core.cpp:628-667 | adding a job keeps distinct IDs, per-printer order, the attempt bound and the limit of 256 active jobs |
| PrintQueue.SubmitTwice | legacy-windows/src/core.cpp:628-667 | a repeat of an accepted submission succeeds exactly for the same printer and normalised document, and adds no row |
| PrintQueue.RetryKeepsTurn | legacy-windows/src/core.cpp:680-715 | a settled job can be claimed again exactly for a retryable, certain failure below the limit and after its delay; no later job of the printer overtakes it meanwhile |
| PrintQueue.ClaimKeeps | legacy-windows/src/core.cpp:677-697 | claiming keeps the queue invariant |
| PrintQueue.FinishKeeps | legacy-windows/src/core.cpp:698-715 | settling keeps the queue invariant, retries included |
| PrintQueue.CancelKeeps | legacy-windows/src/core.cpp:716-729 | cancelling keeps the queue invariant |
| PrintQueue.ClearKeeps | legacy-windows/src/core.cpp:733-757 | clearing keeps the queue invariant |
| PrintQueue.RecoverKeeps | legacy-windows/src/core.cpp:583-585 | crash recovery keeps the queue invariant |
| PrintQueue.OnePrintingPerPrinter | legacy-windows/src/core.cpp:680-683 | two printing rows of one printer are the same row |
| PrintQueue.ClaimProgress | legacy-windows/src/core.cpp:680-688 | with a queued job, none printing and all delays over, a claim succeeds and takes the oldest active job |
| PrintTransport.SendNetwork | legacy-windows/src/platform.cpp:600-663 | a retryable error means that connecting failed and nothing left; after that every error is an unknown outcome; success sends every byte, and comes as long as every call takes something |
| PrintTransport.SpoolChild | legacy-windows/src/platform.cpp:774-814 | succeeds exactly when every call does and each chunk is taken whole; exit code 10 exactly when the queue did not open, with nothing written |
| PrintTransport.SendSpooler | legacy-windows/src/platform.cpp:815-850 | a retryable error means nothing reached the spooler, if and only if no dead child's exit code passes for an unopened queue |
| PrintTransport.PrintCopies | legacy-windows/src/main.cpp:229-257 | succeeds exactly when the document renders and every copy is sent; else the first copy that was not sent decides, with the unknown outcome after an earlier copy; a failure that may be retried means that no byte left |
| PrintTransport.RunOnce | legacy-windows/src/main.cpp:221-262 | a job of which anything may have left is not queued afterwards; it is completed exactly when every copy was sent, and otherwise settled as its failure asks; an unsettled one still prints |
| PrintSystem.StepKeepsInv | legacy-windows/src/core.cpp:583-757 | every step of agent, worker, crash and restart keeps the invariant of table, worker and transmissions |
| PrintSystem.RunKeepsInv | legacy-windows/src/core.cpp:583-757 | hence every run does |
| PrintSystem.NoReplay | legacy-windows/src/main.cpp:221-262 | over every run, transmissions of a printer are in job and copy order unless the earlier one belongs to a spool child that outlived its agent; no copy of a row goes out twice; a copy of a job ID goes out twice only if a clear removed the first one's row |
| PrintSystem.TouchedNeverQueued | legacy-windows/src/core.cpp:698-715 | a job with a transmission in the log is never queued again |
| PrintSystem.QueueBounds | legacy-windows/src/core.cpp:653-656 | over every run at most 256 jobs are active, no job is claimed more than 5 times, and a printing job is the first active one of its printer |
| PrintSystem.ClaimInTurn | legacy-windows/src/core.cpp:677-697 | a job is claimed only after every earlier job of its printer is finished or gone |
| PrintSystem.StepDrains | legacy-windows/src/core.cpp:677-757 | without submissions, every claim and settlement uses up potential and no step adds any |
| PrintSystem.Drains | legacy-windows/src/core.cpp:677-757 | hence a queue with no arrivals does at most twelve claims and settlements per active job |
| PrintSystem.NeverStuck | legacy-windows/src/core.cpp:677-697 | in every reachable state with an idle worker, a queued job and all delays over, a claim makes progress |
| PrintOutcome.CompletedIsDone | legacy-windows/src/main.cpp:221-262 | over every run, a completed row has had all of its copies done, and a queued one none |
| PrintOutcome.RunFits | legacy-windows/src/main.cpp:221-262 | the number of copies done fits the state of every row, over every run |
| PrintOutcome.TurnEnds | legacy-windows/src/main.cpp:229-259 | with every copy done a turn ends in a completed row, and a failure settles it as it asks, unknown once a copy was done |
| SplitBill.SplitBillOf | offline-menuvex/internal/store/domains.go:643-696 | the loop computes the specified bill, whose lines say quantity, paid units, unit price rounded down, share, paid and remaining amount; and the collected and the remaining amount |
| SplitBill.Tally | offline-menuvex/internal/store/domains.go:651-659 | the maps of paid quantity and amount agree with the payment log for every line |
| SplitBill.SharesSay | offline-menuvex/internal/store/domains.go:661-675 | every share but the last is the 64-bit product of line and total divided by the subtotal, not below zero; the last takes what is left; without a positive bill all are nothing |
| SplitBill.SumIsTotal | offline-menuvex/internal/store/domains.go:661-675 | shares sum to the total exactly when the shares before the last do not exceed it |
| SplitBill.AllocationExact | offline-menuvex/internal/store/domains.go:661-675 | for non-negative lines the shares sum exactly to the total, with or without overflow |
| SplitBill.PrefixNotOver | offline-menuvex/internal/store/domains.go:661-675 | with or without overflow, the shares before the last never pass their exact proportion |
| SplitBill.PrefixShares | offline-menuvex/internal/store/domains.go:661-675 | when no product overflows, the first n shares are at most n rials below the exact proportion and never above |
| SplitBill.LastShare | offline-menuvex/internal/store/domains.go:665-675 | when no product overflows, the last share is less than n rials above its proportion and not below it |
| SplitBill.ProportionalIffExact | offline-menuvex/internal/store/domains.go:665-675 | a share other than the last is its proportion rounded down if and only if the product fits 64 bits |
| SplitBill.OverflowExample | offline-menuvex/internal/store/domains.go:665-675 | two equal lines of four billion rials are shared as nothing and everything |
| SplitPayments.QuoteWithin | offline-menuvex/internal/store/domains.go:700-716 | a quote lies between zero and what remains of the line |
| SplitPayments.SplitQuoteSays | offline-menuvex/internal/store/domains.go:700-716 | the price of a pick: the rest of the line for all units left, else so many times the unit price up to the rest, but a proportional part of the rest if units are worth less than a rial |
| SplitPayments.QuoteMonotone | offline-menuvex/internal/store/domains.go:700-716 | picking more units never costs less |
| SplitPayments.QuoteFair | offline-menuvex/internal/store/domains.go:676-716 | from an untouched line, any pick costs its proportional part of the share, short by less than a rial a unit |
| SplitPayments.PositiveAmount | offline-menuvex/internal/store/domains.go:757-774 | the picks cost something exactly when one of them does |
| SplitPayments.OrderBook.Record | offline-menuvex/internal/store/domains.go:721-825 | accepted exactly on the stated conditions; a repeated token changes nothing, else one payment with every pick quoted, the token and the normalised method is appended; stored are its sum, what remains, and paid, partial or unpaid accordingly |
| SplitPayments.OrderBook.Quote | offline-menuvex/internal/store/domains.go:757-771 | each pick appears once with its quote, whatever the iteration order, and the amount is their sum |
| SplitPayments.OrderBook.UndoLast | offline-menuvex/internal/store/domains.go:827-887 | removes exactly the last payment of an order that is not completed, and brings the stored summary up to date |
| SplitPayments.LinesSound | offline-menuvex/internal/store/domains.go:698-887 | for every log of recorded payments, a line is never overpaid in units or rials, and is paid its whole share once all its units are |
| SplitPayments.CollectedIsSum | offline-menuvex/internal/store/domains.go:653-659 | the collected amount is the sum over lines of what each was paid |
| SplitPayments.PaymentsSound | offline-menuvex/internal/store/domains.go:643-887 | over every run of payments and undos on an order with something to pay and non-negative lines, lines are sound, nothing is over-collected, and the remaining amount is the sum of the lines' remainders |
| SplitPayments.FullyPaidIsTotal | offline-menuvex/internal/store/domains.go:643-887 | once every unit is paid, the amount collected is the total if and only if no line without units carries a share |
| SplitPayments.SummaryHolds | offline-menuvex/internal/store/domains.go:784-811 | over every run the stored summary is that of the log; it says paid exactly when nothing remains on any line, and partial exactly when something was paid and something remains |
| SplitPayments.UnitlessStaysOpen | offline-menuvex/internal/store/domains.go:676-716 | a line without units is never paid, and its whole share stays open |
| SplitPayments.UnitlessExample | offline-menuvex/internal/store/domains.go:676-716 | an order of ten rials on such a line counts as paid in full with nothing collected |
| SplitPayments.UndoRestores | offline-menuvex/internal/store/domains.go:827-887 | undoing a recorded payment gives the order back, summary fields included |
| OrderStatus.RepeatIff | offline-menuvex/internal/store/domains.go:1073-1085 | a completed order deducts again exactly when its stored status is padded and "completed" is asked for |
| OrderStatus.TransitionIff | offline-menuvex/internal/store/domains.go:1052-1085 | a transition is accepted if and only if the status stays the same or the order goes forward, by any number of stages, from one that is not final |
| OrderStatus.NoMoreDeductions | offline-menuvex/internal/store/domains.go:1094-1150 | a completed order with a trimmed status never deducts nor changes, whatever is requested |
| OrderStatus.AtMostOnce | offline-menuvex/internal/store/domains.go:1094-1150 | over every sequence of trimmed requests the recipe is deducted at most once, and exactly when the order ends completed |
| OrderStatus.PaddedTwice | offline-menuvex/internal/store/domains.go:1073-1130 | with a padded request in between, it is deducted twice |
| OrderStatus.CapitalsNever | offline-menuvex/internal/store/domains.go:1073-1130 | completed in capitals, it is never deducted |
| Tables.CreateKeeps | offline-menuvex/internal/store/domains.go:323-340 | seating a new order keeps every busy live table pointing at an open order seated there |
| Tables.CreatedSays | offline-menuvex/internal/store/domains.go:323-340 | a new order is pending at its table, which is busy with it if it is live, and nothing else changes |
| Tables.MovedSays | offline-menuvex/internal/store/domains.go:891-976 | a transfer is accepted exactly on the stated conditions, and changes exactly the order and the two tables |
| Tables.StatusSays | offline-menuvex/internal/store/domains.go:1094-1227 | a status change changes exactly the status, and frees the table for the two words that do |
| Tables.TransferKeepsIff | offline-menuvex/internal/store/domains.go:891-976 | an accepted transfer does so if and only if the order moved is open |
| Tables.StatusKeepsIff | offline-menuvex/internal/store/domains.go:1142-1227 | a status change does so if and only if the new status is open or frees the table, or no table points at the order |
| Tables.SpellingLeavesPointer | offline-menuvex/internal/store/domains.go:1142-1227 | completed in capitals or padded, an order leaves its table pointing at it |
| Tables.PointersHold | offline-menuvex/internal/store/domains.go:891-1227 | over every run of creation, transfer and status changes to open statuses and the two freeing words, a busy live table names an open order seated there |
| Tables.TakenOnce | offline-menuvex/internal/store/domains.go:1094-1236 | however the operations of all orders interleave, an order's recipes leave stock at most once, and then it ends completed |
| Tables.TransferKeepsApart | offline-menuvex/internal/store/domains.go:891-976 | a transfer never makes two open orders share a table |
| Stock.AnyRecipeFirst | offline-menuvex/internal/store/domains.go:1160-1200 | the total of the recipes does not depend on which recipe comes first |
| Stock.ItemsAdd | offline-menuvex/internal/store/domains.go:1160-1175 | an order uses what its lines use together |
| Stock.RecipesAdd | offline-menuvex/internal/store/domains.go:1160-1175 | one more recipe adds what it uses by itself |
| Stock.RecipeLinesAdd | offline-menuvex/internal/store/domains.go:1166-1180 | a recipe uses what its lines use one by one, and without lines nothing |
| Stock.OneLineUse | offline-menuvex/internal/store/domains.go:1160-1180 | one recipe line for one order line: so much per unit times the units, for a live recipe of the product and that ingredient, else nothing |
| Stock.StockRoom.DeductItem | offline-menuvex/internal/store/domains.go:1160-1200 | in any recipe order, each live ingredient loses what the matching recipes use, by movements added at the end and filed under the order that account for it |
| Stock.StockRoom.DeductOrder | offline-menuvex/internal/store/domains.go:1158-1200 | the same for all lines of an order |
| Stock.StockRoom.Record | offline-menuvex/internal/store/domains.go:1241-1380 | accepted exactly for a quantity and a live ingredient; purchases and the like add it, consumption and the like take it, outgoing stops at zero, a target sets the stock, an adjustment adds its signed quantity; one movement says the difference, and waste leaves an event |
| Stock.DeltaLaws | offline-menuvex/internal/store/domains.go:1265-1294 | the signed delta of every kind makes the stock what the kind says, outgoing never takes more than there is, and voiding waste undoes it |
| Stock.StockRoom.VoidWaste | offline-menuvex/internal/store/domains.go:1385-1422 | the event is marked once, then its quantity goes back to a live ingredient by one movement; otherwise an error, and nothing comes back |
| Stock.VoidRestores | offline-menuvex/internal/store/domains.go:1241-1422 | recording waste and voiding it restores every stock, and a second void changes nothing |
| Stock.VoidGivesIff | offline-menuvex/internal/store/domains.go:1385-1422 | an event with an ingredient and a quantity gives it back if and only if the ingredient is live and the void is not cut short; no later void changes anything |
| Stock.VoidLosesExample | offline-menuvex/internal/store/domains.go:1385-1422 | five units of a deleted ingredient, or of a void cut short, are marked voided and lost |
| CafeSystem.StepKeeps | offline-menuvex/internal/store/domains.go:239-1422 | placing, editing, moving, changing status, recording, voiding, cut short or not, and revising recipes keep the pointers and the bookings of every order |
| CafeSystem.RunKeeps | offline-menuvex/internal/store/domains.go:239-1422 | over every run with fresh identifiers and known statuses, a busy table names an open order seated there and each order is booked with what it was made of if completed, else with nothing |
| CafeSystem.StockFromOpening | offline-menuvex/internal/store/domains.go:239-1422 | over every run from an empty ledger, whatever is asked, stock is the opening stock plus the movements |
| CafeSystem.OrderFromOpening | offline-menuvex/internal/store/domains.go:239-1422 | the movements filed under an order sum, per live ingredient, to minus what its recipes and lines of the moment of completion use, and to zero if it was not completed |
| CafeSystem.LedgerHolds | offline-menuvex/internal/store/domains.go:239-1422 | over every run, whatever is asked, each stock moved by what the ledger recorded |
| Cafe.Counter.CreateOrder | offline-menuvex/internal/store/domains.go:239-460 | accepted exactly when a live order bears the token or the lines are acceptable; a repeat changes nothing and names that order; else it is pending at its table with its valid lines, as the placing step of the runs |
| Cafe.LinesJoin | offline-menuvex/internal/store/domains.go:266-291 | lines are taken one by one, in order |
| Cafe.LineTaken | offline-menuvex/internal/store/domains.go:266-291 | a line is taken exactly for a product that is not blank and at least one of it |
| Cafe.Counter.EditOrder | offline-menuvex/internal/store/domains.go:469-560 | accepted exactly for an editable order and acceptable lines, and then the editing step of the runs |
| Cafe.Counter.Transfer | offline-menuvex/internal/store/domains.go:891-976 | accepted exactly for an order that is not closed, to another live table that is free; only the order's table and the two tables' pointers change, as the moving step of the runs |
| Cafe.Counter.SetStatus | offline-menuvex/internal/store/domains.go:1094-1236 | accepted exactly for a live order and a legal transition; only its status changes, its table is freed by the two words that do, and stock is taken exactly on the deducting transition, as the status step of the runs |
| Replica.MergePage | offline-menuvex/internal/store/store.go:384-425 | a page is merged whole when every change is well formed, else not at all; each record then has a highest change's version, payload and deletion, or is as it was when no change beats it |
| Replica.MergeWinner | offline-menuvex/internal/store/store.go:384-410 | each entity ends as a change of the highest version for it, or as it was when none overrides it |
| Replica.MergeDecides | offline-menuvex/internal/store/store.go:384-410 | said field by field: key, version, deleted exactly for a tombstone or a delete, and the payload or an empty object |
| Replica.Convergence | offline-menuvex/internal/store/store.go:384-425 | order and repetition of changes do not matter when the highest ones of an entity agree |
| Replica.ConvergenceIff | offline-menuvex/internal/store/store.go:384-425 | and they do matter in every other case |
| Replica.MergeAppend | offline-menuvex/internal/store/store.go:412-425 | page boundaries do not matter |
| Replica.ReplayIdle | offline-menuvex/internal/store/store.go:395-408 | merging a page again changes nothing, unversioned changes included |
| Replica.TombstoneStays | offline-menuvex/internal/store/store.go:394-408 | a deleted record stays exactly as it is through changes that do not override its version, other deletes included |
| Replica.TombstoneIff | offline-menuvex/internal/store/store.go:384-410 | with agreeing changes, it ends deleted if and only if nothing overrides it or a highest change deletes |
| Replica.RedeliveryIff | offline-menuvex/internal/store/store.go:384-410 | a page whose changes are all there, at their version or newer, changes nothing again if and only if each unversioned record is still what the page last made of it |
| Replica.RedeliveryIdle | offline-menuvex/internal/store/store.go:384-410 | without unversioned changes it always changes nothing |
| Outbox.CheckResponse | offline-menuvex/internal/store/outbox.go:260-278 | the loop that empties the expected map accepts exactly the full coverings of the sent batch |
| Outbox.FullReplyIff | offline-menuvex/internal/store/outbox.go:258-278 | a covering response has one known status word for each operation that was sent, and nothing else |
| Outbox.AnsweredSays | offline-menuvex/internal/store/outbox.go:279-300 | each answered operation has the state its word names and the raw result, every other one is untouched |
| Outbox.CoversIsBijection | offline-menuvex/internal/store/outbox.go:258-278 | such a covering answers each sent operation, and none twice |
| Outbox.BatchIsOldest | offline-menuvex/internal/store/outbox.go:209-256 | the batch is the oldest pending operations in sequence order, 100 at most |
| Outbox.BatchShape | offline-menuvex/internal/store/outbox.go:209-256 | it is a prefix of the pending operations, shortened only at the limit |
| Outbox.OldestIs | offline-menuvex/internal/store/outbox.go:209-256 | for every limit up to a hundred, the batch is the oldest waiting operations in sequence order, as many as there are up to the limit |
| OfflineStore.OutboxRun | offline-menuvex/internal/store/outbox.go:136-317 | over every run IDs, sequences, payloads and base versions never change, sequences increase, each entity has at most one open operation, and applied and discarded are final |
| OfflineStore.Store.QueueCatalog | offline-menuvex/internal/store/outbox.go:136-202 | accepted exactly when no open operation exists for the record and the base version is current; then one operation with the next sequence number, the payload and the base version is queued at the end |
| OfflineStore.Store.SaveResults | offline-menuvex/internal/store/outbox.go:260-303 | accepted exactly when the response answers each sent operation once, with known words, and all of these still wait; then each has its state and raw result and nothing else changes, otherwise nothing does |
| OfflineStore.Store.Discard | offline-menuvex/internal/store/outbox.go:307-317 | discards exactly a blocked operation |
| OfflineStore.Store.ApplyPage | offline-menuvex/internal/store/store.go:412-425 | entities and cursor change together or not at all; every record is as the page's highest change says, field by field, or as it was |
| OfflineStore.Store.Bootstrap | offline-menuvex/internal/store/store.go:445-477 | the replica becomes the snapshot and the cursor its cursor, or neither changes |
| OfflineStore.SurvivesIff | offline-menuvex/internal/store/store.go:445-477 | a record is there after a bootstrap exactly when the snapshot holds its key |
| OfflineStore.LocalKindsVanish | offline-menuvex/internal/store/store.go:427-477 | no stock movement and no print job survives one |
| OfflineStore.LoadSections | offline-menuvex/internal/store/store.go:445-477 | in any section order, each entity is what its own section's rows merge to |
| OfflineStore.SnapshotSays | offline-menuvex/internal/store/store.go:445-477 | after a bootstrap every record is a newest row of its section, alive, with its version and text |
| OfflineStore.SectionIsPlural | offline-menuvex/internal/store/store.go:427-442 | each section fills the kind of which its name is the plural |
| OfflineStore.SectionKindsDiffer | offline-menuvex/internal/store/store.go:427-442 | no two sections fill the same entity kind |
| Sync.RunBootstrap | offline-menuvex/internal/syncclient/client.go:110-127 | a refused or failed bootstrap leaves data and cursor as they were |
| Sync.Connect | offline-menuvex/internal/syncclient/client.go:133-161 | succeeds exactly for the same device, protocol two, and a usable snapshot when one is due |
| Sync.TakePage | offline-menuvex/internal/syncclient/client.go:204-216 | deliver, commit, acknowledge, in this order, each a step of the device; the page is stored exactly when it is acceptable, and the call succeeds exactly when it is also confirmed |
| Sync.PullPages | offline-menuvex/internal/syncclient/client.go:181-218 | a run of steps with at most 100 requests and one recovery bootstrap; it succeeds exactly when the replies allow, and then holds every page of a server that sends and confirms them |
| Sync.PushBatch | offline-menuvex/internal/syncclient/client.go:162-180 | sends exactly the oldest waiting operations, up to the server's limit and a hundred; succeeds exactly when there are none or the reply covers them; then each has the server's state and raw result, and nothing else changes |
| Sync.Refresh | offline-menuvex/internal/syncclient/client.go:130-219 | a run of steps, whatever fails; intents are pushed and answered once the connection stands; it succeeds exactly when connection, push and pulls do, and then holds all pages of a server that sends and confirms them |
| Sync.RunKeepsInv | offline-menuvex/internal/syncclient/client.go:130-219 | over every run of refreshes, local writes, failures and crashes, durable versions are linked, the client's cursor is the stored one, and receipts are of committed pages |
| Sync.AckedIsDurable | offline-menuvex/internal/syncclient/client.go:207-213 | whenever the server receives an acknowledgement, its cursor is the durable one; its page was committed whole with that cursor, merged into the copy it was asked for from, and every change of it is still there at its version or newer |
| Sync.ReceiptsSound | offline-menuvex/internal/syncclient/client.go:181-217 | in every reachable state each receipt is of a durable page with its cursor, with at most 100 requests and one recovery since the refresh began |
| Sync.NothingAckedLost | offline-menuvex/internal/syncclient/client.go:204-217 | in every reachable state, local writes included, each change of each page committed since the last bootstrap is in the copy at its version or a newer one |
| Sync.RedeliveryInRun | offline-menuvex/internal/syncclient/client.go:188-210 | in every reachable state, a page committed since the last bootstrap, sent again, changes nothing if and only if each unversioned record is still what it last made of it, and always if it has no unversioned changes |
| Sync.UnversionedTurnsBack | offline-menuvex/internal/syncclient/client.go:188-210 | a run of two pages that write an unversioned record as B after A, after which the first one sent again makes it A |
| Jalali.Homomorphism | offline-menuvex/jalali.go:38-65 | a valid Gregorian date gives a valid date of the 33-year calendar, and the next day gives the next day |
| Jalali.Monotone | offline-menuvex/jalali.go:38-65 | dates are ordered as their conversions are, and different dates convert differently |
| Jalali.SameDayLater | offline-menuvex/jalali.go:38-65 | n days later in one calendar is n days later in the other |
| Jalali.Anchors | offline-menuvex/jalali.go:38-65 | 20 March 2024 is 1 Farvardin 1403 and 11 February 1979 is 22 Bahman 1357 |
| Jalali.NextDayCount | offline-menuvex/jalali.go:38-47 | the day number grows by one per Gregorian day |
| Jalali.NextFromDays | offline-menuvex/jalali.go:48-64 | consecutive day numbers give consecutive Jalali dates |
| Jalali.FindPlace | offline-menuvex/jalali.go:48-55 | every day number lies in exactly the cycle, four-year block and year that the divisions find |
| KitchenRouting.ResolveName | offline-menuvex/internal/store/printing.go:272-279 | in any order, the loop finds a category with the title, or none when there is none |
| KitchenRouting.PlaceWords | offline-menuvex/internal/store/printing.go:221-233 | a printer is the till or a kitchen exactly when its station or title has one of the words |
| KitchenRouting.PrinterOfSays | offline-menuvex/internal/store/printing.go:173-202 | a route goes to the first active printer with its identifier, else to the first whose title and name contain one another |
| KitchenRouting.TargetSays | offline-menuvex/internal/store/printing.go:284-296 | a route asks for its copies, one without a number, brought within one and five |
| KitchenRouting.BuildTable | offline-menuvex/internal/store/printing.go:266-296 | the table is that of the resolution the run made, and a route is in force exactly when it is not empty |
| KitchenRouting.SettledIff | offline-menuvex/internal/store/printing.go:266-296 | whatever is looked at of a category's route, it is independent of iteration order if and only if it is settled |
| KitchenRouting.DistinctTitlesSettle | offline-menuvex/internal/store/printing.go:272-279 | without shared titles every category is settled |
| KitchenTickets.Tickets.Add | offline-menuvex/internal/store/printing.go:299-333 | a ticket for a printer is merged into the one it has, with the union of categories and the larger number of copies |
| KitchenTickets.TicketsFor | offline-menuvex/internal/store/printing.go:299-355 | in any iteration order the tickets are exactly the specified ones, one per printer |
| KitchenTickets.IsTicketSays | offline-menuvex/internal/store/printing.go:299-355 | a ticket, said in full: its printer, exactly the categories that go there, and the most copies any of them asks for, brought within one and five |
| KitchenTickets.OnePerPrinter | offline-menuvex/internal/store/printing.go:299-333 | a printer has at most one ticket |
| KitchenTickets.ExactlyOneTicket | offline-menuvex/internal/store/printing.go:334-352 | with a route in force, a category is on exactly one ticket if it is routed or a kitchen station exists, and on none otherwise |
| KitchenTickets.TicketsDetermined | offline-menuvex/internal/store/printing.go:246-355 | if the deliveries of the order's categories are settled, the tickets do not depend on iteration order, copies included |
| KitchenTickets.ContentsIff | offline-menuvex/internal/store/printing.go:266-352 | which categories are on which printer's ticket is independent of iteration order if and only if each one's printer, the station by default, is settled |
| KitchenTickets.OneCategoryIff | offline-menuvex/internal/store/printing.go:266-352 | for an order of one category the ticket with its copies is fixed if and only if its delivery is settled |
| KitchenTickets.SharedTitleSplits | offline-menuvex/internal/store/printing.go:272-279 | with a shared title, one order of iteration prints the category and another does not |
| PrintJobs.BeforeIff | offline-menuvex/internal/store/store.go:352-361 | identifiers come in the order of their texts: a start first, else by the first character in which they part |
| PrintJobs.LowestIsPrefix | offline-menuvex/internal/store/store.go:352-361 | the cut keeps the right number, and only lower identifiers than those it drops |
| PrintJobs.PrintDesk.ListJobs | offline-menuvex/internal/store/printing.go:476-498 | of the jobs read, those of the order, the 100 newest at most |
| PrintJobs.PrintDesk.CreateJobs | offline-menuvex/internal/store/printing.go:417-455 | a wanted key found in the listing is reused, every other one gets exactly one new job, and no job changes; the oldest job of the key is reused |
| PrintJobs.KeysFor | offline-menuvex/internal/store/printing.go:236-387 | the keys are exactly those of the customer receipt and the kitchen tickets |
| PrintJobs.WantedSays | offline-menuvex/internal/store/printing.go:152-388 | what a request prints, said in full: the receipt at the till in the copies asked for and the kitchen tickets, or one failed job without a printer |
| PrintJobs.AllWanted | offline-menuvex/internal/store/printing.go:214-388 | and all of it: the receipt at the till, and every ticket that is asked for |
| PrintJobs.PrintDesk.Enqueue | offline-menuvex/internal/store/printing.go:152-388 | the whole call is one run of the specification, the case without a printer and the missing order included; a new job is pending, without a printer failed |
| PrintJobs.CreatesNothingIff | offline-menuvex/internal/store/printing.go:432-453 | nothing is created exactly when every wanted key is found |
| PrintJobs.RepeatIff | offline-menuvex/internal/store/printing.go:417-498 | with at most 100 readable jobs of the order, nothing is created exactly when each wanted key has a job among the 500 lowest identifiers |
| PrintJobs.RepeatCreatesNothing | offline-menuvex/internal/store/printing.go:152-455 | within the limits, a later call with unchanged settings creates nothing, whatever the statuses have become; settled routes matter only when routes are consulted |
| PrintJobs.HiddenIsDuplicated | offline-menuvex/internal/store/store.go:358-360 | beyond them, a key whose jobs, at least one, all have 500 lower identifiers gets a second job |
| Json.ScanEscape | sdk/src/protocol.ts:55-57 | reading a quoted string back gives the string |
| Json.RenderPrefix | sdk/src/protocol.ts:50-58 | two renderings that agree up to what follows are renderings of the same value |
| Json.RenderSample | sdk/src/protocol.ts:50-58 | an object of a list, letter for letter |
| Json.EscapesAre | sdk/src/protocol.ts:55-57 | what is escaped in a quoted string, and how: one of each kind |
| Fingerprint.StableInjective | sdk/src/protocol.ts:50-58 | equal fingerprints mean requests equal up to key order |
| Fingerprint.SameTextIff | sdk/src/protocol.ts:50-58 | with any comparison of keys, fingerprints agree exactly when the sorted forms do |
| Fingerprint.Canonical | sdk/src/protocol.ts:50-58 | another request has the fingerprint of one without tied keys exactly when it is equal to it up to key order |
| Fingerprint.TieKeepsOrder | sdk/src/protocol.ts:53-54 | two tied keys give one request two different fingerprints |
| Fingerprint.CanonicalIff | sdk/src/protocol.ts:53-54 | for every request, all equal ones up to key order have its fingerprint if and only if none of its keys tie |
| Fingerprint.NamesUntied | sdk/src/types.ts:12-64 | a request whose keys come from a list of names that do not tie has no ties |
| Fingerprint.SortThenMap | sdk/src/protocol.ts:53-56 | sorting entries and then rendering their values is the same as normalising the values first |
| PrintClient.Client.Print | sdk/src/client.ts:466-481 | an overlapping call joins exactly when the sorted requests agree and else conflicts, sending nothing; it joins only equal requests, and all of them unless keys of both tie; any other call is sent once |
| PrintClient.Client.Settle | sdk/src/client.ts:476-478 | a settled job can be submitted anew, and no other entry changes |
| PrintClient.JoinIff | sdk/src/client.ts:470-475 | fingerprints agree exactly when the sorted requests do, only for equal requests, and for all of them unless keys of both tie |
| Routes.RoutingStore.Claim | sdk/src/routing.ts:33-57 | the first claim wins for ever, and only it is told that it created the route |
| Routes.StepKeepsInv | sdk/src/providers.ts:27-56 | every step of interleaved calls, disconnects and restarts keeps the ownership invariant |
| Routes.Exclusive | sdk/src/providers.ts:27-56 | over every interleaving a job goes to legacy printing at most once, and never to both |
| Routes.RouteStable | sdk/src/routing.ts:41-47 | a route never changes once written |
| Routes.AgentPrints | sdk/src/providers.ts:27-56 | an undisturbed call with the agent there hands a job that is not legacy's to the agent |
| Routes.LegacyPrints | sdk/src/providers.ts:27-56 | without the agent and with legacy allowed, a job without a route goes to legacy printing, one with a route nowhere |
| Raster.Encoder.Raster | src-tauri/src/print/escpos.rs:54-81 | appends exactly the stripes of the bitmap, or nothing when it is refused |
| Raster.WindowsRaster | legacy-windows/src/core.cpp:490-507 | the C++ loop writes the same stripes between its own head and tail |
| Raster.SameStripes | legacy-windows/src/core.cpp:490-507 | whatever it accepts the Rust encoder accepts, with the same bytes |
| Raster.RoundTrip | src-tauri/src/print/escpos.rs:65-79 | a stripe reader gets rows and bits back and leaves what follows |
| Raster.EncoderRoundTrip | src-tauri/src/print/escpos.rs:54-81 | for every accepted bitmap; the width comes back exactly when it is a multiple of eight |
| Raster.OneRow | src-tauri/src/print/escpos.rs:65-79 | a row of eight dots, byte for byte |
| Wrap.LongestFit | legacy-windows/src/platform.cpp:397-415 | the binary search ends, and finds the longest prefix that fits and splits no surrogate pair |
| Wrap.Wrap | legacy-windows/src/platform.cpp:384-427 | it ends in the specified lines; every piece fits and is well formed; pieces and dropped spaces give the text back; it fails only at a character that does not fit by itself |
| Wrap.TakeLine | legacy-windows/src/platform.cpp:418-424 | cutting and dropping spaces loses only spaces and splits no pair |
| Wrap.BreakAtIff | legacy-windows/src/platform.cpp:418-420 | a line ends at the last break point of its fitting cut if and only if the cut is not itself one or has no space inside |
| Wrap.BreaksEarly | legacy-windows/src/platform.cpp:418-420 | "aa bb cc dd" at five columns becomes exactly "aa", "bb" and "cc dd", although "aa bb" fits |

## Left out

- HTTP, WebSocket, SQLite, IndexedDB and file mechanics: they appear as atomic steps, replies or durable maps; a transaction either takes effect or does not.
- The user interface, native windows, charts, glyph shaping and text measurement: `Wrap` takes any measure that grows with the prefix.
- Licences, sessions, pairing and message authentication.
- `src-tauri/src/state.rs` and the Rust queue; the C++ `Store` is the queue modelled here.
- Field validators of documents, configurations, catalogue intents and print requests: their inputs are taken as already validated, apart from the bounds stated in `ValidConfig` and `ValidId`.
- Clocks, fresh identifiers and random names are parameters.
- `UpdateOrderItemsFull`: its new lines are a step of the café's runs, its totals are not, and payment runs are stated between such edits.
- `SaveLocalRecord`, `DeleteLocalRecord` and `ResetAll`: the runs of orders, tables and stock have no such writes; to the sync client a local write keeps every record and lowers no version, so a reset is not one.
- Order numbers, average cost, debtors and expenses.
- Case folding and blanks beyond ASCII in `Text`.
- PrintQueue.Store.Save: only the bounds that the queue needs are checked; port, routes, names, addresses and the other print settings of a configuration are taken as valid.
- PrintQueue.Store.Enqueue: the document is taken as valid.
- PrintSystem.NoReplay: the runs take every send as honest, which leaves out a dead spool child whose exit code happens to be 10.
- OfflineStore.Store.QueueCatalog: the shape of the payload and of the identifier is taken as valid.
- Cafe.Counter.CreateOrder: totals, discount, customer and debtor of the new order are not modelled.
- KitchenTickets.TicketsDetermined: one way for several categories on one printer; their copies are merged by a maximum, and whether some resolution lowers it is a matching of ambiguous routes to categories, not a test of each category.
- SplitBill.SplitBillOf: only the product in a share wraps at 64 bits; sums and quotes of money are exact integers.
- Stock.StockRoom.DeductItem: quantities are whole hundredths and exact; the rounding of finer floating-point quantities is not modelled.
- PrintJobs.PrintDesk.CreateJobs: a key is a tuple with a set of categories, so two keys whose joined texts happen to coincide are told apart; the list order of categories inside a ticket is not modelled.
- KitchenTickets.TicketsFor: the product of the wanted and the route's copies does not wrap.
- Json.RenderPrefix: numbers are their printed text, so negative zero equals zero, as it does in the printed form.
- Wrap.Wrap: text is well-formed UTF-16; lone surrogates are not modelled.
- PrintClient.Client.Print: reconnection, timeouts and the reply schema are not modelled; `Settle` stands for either end of a request.
