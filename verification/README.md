# Stock, treasury and import proofs

A model, in Dafny 4.11, of the core of a multi-branch trading system: the treasury ledger with its
reports, the inventory with the services that hold and move stock, the import engine, the request rate
limiter and the intelligence lookup; and proofs about it. `dafny verify dfyconfig.toml` checks all of it.

Money and quantities are integers in units of 1/10000, as the NUMERIC(18,4) columns hold them. One
service call is one step that succeeds or changes nothing, as its transaction does; the lock-ordering
proofs interleave single lock grants instead. Tables are sequences, maps and sets of one tenant.

Where the source changes things step by step, the model does too: `FinanceService`, `InventoryService`,
`StockServices`, `ImportService` and `ImportJob` hold classes whose methods loop over lines in place and
go back to a savepoint on failure. Each method is proved equal to a specification function, and its contract
says what the call does to sound tables. What the system promises over runs is proved about those functions.

| file | what it holds |
|---|---|
| Common.dfy, Sums.dfy, Text.dfy | options and outcomes, sums over tables, the text operations on names |
| Ledger.dfy, Treasury.dfy | movements and reversals; the books and every operation on them |
| TreasuryEffects.dfy, TreasuryRuns.dfy | what each operation does to each account, and when it is accepted; conservation and finality over runs |
| FinanceService.dfy | the finance service as an object |
| Grouping.dfy, FinanceReports.dfy | grouped sums, batched balances, statements, the day book |
| AccountLocks.dfy, PostingLocks.dfy | concurrent transactions taking account row locks, and the postings those locks are for |
| Stock.dfy | inventory rows, movement ledger, holds, and their primitive writes |
| Consignment.dfy, Issuance.dfy, Dispatch.dfy, BikeIssues.dfy | the four services on documents and stock |
| ImportStock.dfy | opening stock of an import and its rollback |
| StockSystem.dfy, StockRuns.dfy, StockRequests.dfy | all of them interleaved on shared stock, what holds of every run, and that what was asked for is what is done |
| InventoryService.dfy, StockServices.dfy | the same services as objects over one inventory |
| ImportCache.dfy, ImportCacheRuns.dfy, ImportService.dfy | the reference cache of an import run |
| ImportRunner.dfy, ImportJob.dfy | the row handler, the simple loop and the batched, cancellable run |
| RateLimit.dfy | the fixed-window limiter and the middleware's use of it |
| Signals.dfy | the snapshot index and its lookup |

## Where the code does not meet its promise

The lemmas named say exactly when the code keeps its promise, or show a case in which it does not.

- A handover reversed while pending still has the pending status, so it can be confirmed afterwards, and
  the cash is then counted twice (`backend/app/finance/service.py:740-801`): `TreasuryRuns.ConfirmConservesIff`,
  `TreasuryRuns.LateConfirmationCreatesMoney`.
- A dispatch note may be received again after a partial receipt, and every line is processed again, so
  what was shelved the first time is shelved twice (`backend/app/dispatch/service.py:162-236`):
  `Dispatch.ReceiveConservesIff`, `Dispatch.SecondReceiptDuplicates`, `StockRuns.DispatchConservesGoodsIff`.
- An adjustment checks on-hand but not holds, so it can leave a promise without goods
  (`backend/app/services/inventory_service.py:383-426`): `Stock.AdjustSoundIff`,
  `Stock.AdjustBreaksPromise`. It is therefore not a step of `StockSystem`.
- A loan line that is neither returnable nor consumable is held but not counted by the status rule, so its
  hold can be stranded for good (`backend/app/issuance/domain/status.py:32-39`): `Issuance.ReturnedHoldsNothingIff`,
  `Issuance.StrandedExample`, `StockRuns.StrandedForever`.
- The import context says a rolled-back row never leaves a dangling cache entry
  (`backend/app/imports/service.py:50-54`). For warehouses it can, because a warehouse is found by its code,
  which is the first 64 characters of its name: `ImportCache.RowCoherentIff`, `ImportCache.AliasDangles`. It is
  the context's own promise that fails: the only importer that resolves warehouses does so once a row
  (`backend/app/imports/targets/inventory.py:124`), and `ImportCacheRuns.OneWarehousePerRow` rules it out for such importers.
- A cancellation that arrives during the last batch is overwritten by the final status
  (`backend/app/imports/runner.py:153-162`): `ImportRunner.CancelTakesEffectIff`, `ImportRunner.LateCancelOverwritten`;
  `ImportRunner.RunRefinesLoop` says what is processed in each case.
- Payments lock accounts in line order and reversals in whatever order their query returns, so they can
  deadlock although transfers lock in order (`backend/app/finance/service.py:262-309`, `591-595`):
  `AccountLocks.CanDeadlockIff`, `AccountLocks.TwoCanDeadlockIff`, `AccountLocks.PaymentLinesCanDeadlock`,
  `AccountLocks.ReversalCanDeadlock`.

The doc comment of `set_status` says a repair moves between open and in repair both ways
(`backend/app/bike_issues/service.py:134-151`); the status graph has no way back, and the model follows the graph.

An import rollback does not look at holds, but it does not need to: a hold appends a reserve movement, the
guard sees it, and the rollback is refused. So rollback is a step of `StockSystem` like any other.

## Model

| member | source | states |
|---|---|---|
| `Ledger.UnreversedMeaning` | backend/app/finance/repository.py:217-234 | the query returns exactly the document's originals that no reversal points at, each once, in ledger order |
| `Ledger.ReversalsCancel` | backend/app/finance/service.py:244-260 | when every reversal mirrors one earlier original and no original is reversed twice, any column that flips with the direction sums over the whole ledger to its sum over the open originals |
| `Ledger.MirroredWellReversed` | backend/app/finance/service.py:262-273 | posting the mirrors of the open originals of a document keeps the reversal relation injective and mirror-shaped, and never reverses a reversal |
| `Ledger.ReverseReferenceExactlyOnce` | backend/app/finance/service.py:262-273 | after reversing a document it nets to zero in all and on every account, nothing of it is left to reverse, a second call posts nothing, and the open movements of other documents are the same as before |
| `Ledger.ReverseReferenceRows` | backend/app/finance/service.py:262-273 | a reversal only appends, and each row it appends cancels one earlier row of that document: same account, amount and category, the other direction, dated when the reversal is made |
| `Ledger.DocumentNetsToZero` | backend/app/finance/repository.py:217-234 | a document with no open original contributes nothing, in total and per account |
| `Ledger.DirectReversalIsSafeIff` | backend/app/finance/service.py:244-260 | reversing one movement directly keeps the reversal relation well formed if and only if the target is an original not yet reversed |
| `Treasury.DocumentStep` | backend/app/finance/service.py:204-242 | rows appended for one document that agree with its fields keep every other document and the whole money equation in agreement |
| `Treasury.AccountOpsSound` | backend/app/finance/service.py:108-370 | opening, (de)activating and mapping accounts keep the invariant |
| `Treasury.PayInvoiceSound` | backend/app/finance/service.py:276-309 | sale payments keep the invariant, with unmapped methods and dormant branches |
| `Treasury.VoidInvoiceSound` | backend/app/finance/service.py:262-273 | voiding a sale's payments keeps the invariant |
| `Treasury.CreateExpenseSound` | backend/app/finance/service.py:431-477 | keeps the books sound: an expense keeps its document and the money equation in agreement |
| `Treasury.VoidExpenseSound` | backend/app/finance/service.py:538-563 | keeps the books sound: a voided expense counts as never spent |
| `Treasury.CreateTransferSound` | backend/app/finance/service.py:597-631 | keeps the books sound: the two legs of a transfer agree with a document that nets to zero |
| `Treasury.ReverseTransferSound` | backend/app/finance/service.py:651-678 | keeps the books sound: a reversed transfer still nets to zero |
| `Treasury.CreateHandoverSound` | backend/app/finance/service.py:696-738 | keeps the books sound: a pending handover is its full amount out of all accounts |
| `Treasury.ConfirmHandoverSound` | backend/app/finance/service.py:740-778 | keeps the books sound: a confirmed or disputed handover is its discrepancy out of all accounts; a confirmation after a reversal is a late credit |
| `Treasury.ReverseHandoverSound` | backend/app/finance/service.py:780-801 | keeps the books sound: a reversed handover is out of no account |
| `Treasury.OperationNets` | backend/app/finance/service.py:204-801 | what the movements of an operation's document net to once it is accepted: payments the sum of their lines more, an expense and a pending handover their amount out, a confirmation what was counted less the amount, or all of what was counted after a reversal, and zero for transfers and for whatever is voided or reversed |
| `Treasury.StepSound` | backend/app/finance/service.py:204-801 | every operation, accepted or refused, keeps every document's movements equal to what its own fields say and every reversal well formed |
| `TreasuryRuns.ReachableSound` | backend/app/finance/service.py:204-801 | the invariant holds after every run from empty books |
| `Treasury.BalanceIsSigned` | backend/app/finance/service.py:68-71 | the derived balance is opening plus the account's signed movements |
| `TreasuryRuns.SoundMoney` | backend/app/finance/service.py:68-71 | the sum of all derived balances is openings plus unreversed payments minus live expenses minus what handovers have in transit, plus the late credits |
| `TreasuryRuns.MoneyConservedIff` | backend/app/finance/service.py:204-801 | over every run money is conserved if and only if no handover confirmed after its own reversal credited anything; otherwise the surplus is exactly those credits |
| `TreasuryRuns.ConfirmConservesIff` | backend/app/finance/service.py:740-778 | a confirmation keeps money conserved if and only if the handover has not been reversed or nothing was counted, which a caller can check beforehand |
| `TreasuryRuns.OtherStepsConserve` | backend/app/finance/service.py:204-801 | no other operation can break conservation |
| `TreasuryRuns.TransfersNetToZero` | backend/app/finance/service.py:597-678 | in every reachable ledger each transfer nets to zero, reversed or not |
| `TreasuryRuns.LateConfirmationCreatesMoney` | backend/app/finance/service.py:740-801 | with active accounts every pending handover can be reversed and then confirmed in full, and that breaks conservation: the guard looks at the status only |
| `TreasuryRuns.LateConfirmationReachable` | backend/app/finance/service.py:740-801 | three steps reach books in which this can be done |
| `TreasuryEffects.OperationMovesBalance` | backend/app/finance/service.py:204-801 | every accepted operation changes the balance of each account by exactly what its kind says and from its own date on: the tender's mapped account gets the payment line, the expense's account pays it, a transfer goes from one to the other, a handover leaves its sender when recorded and what was counted reaches its receiver when confirmed, a reversal takes the document's standing off each account as of now; balances as of any earlier instant are as they were |
| `TreasuryEffects.OpenedBalance` | backend/app/finance/service.py:108-138 | a new account's balance is its opening balance, as of any instant |
| `TreasuryEffects.StepPlaces` | backend/app/finance/service.py:204-801 | every operation keeps each document's movements on the accounts its own fields name, for the amounts they say, account by account |
| `TreasuryEffects.ReachablePlaces` | backend/app/finance/service.py:204-801 | so over every run each document stands on its own accounts for what its fields say, and a reversal gives back exactly what it took |
| `TreasuryEffects.ReversalAccepted` | backend/app/finance/service.py:262-273 | a document can be reversed if and only if every account one of its open movements is on still takes movements |
| `TreasuryEffects.AcceptedIff` | backend/app/finance/service.py:108-801 | each of the thirteen operations is accepted if and only if conditions its caller can check hold; nothing else refuses it |
| `TreasuryEffects.StepFiled` | backend/app/finance/service.py:204-801 | every movement belongs to a document and carries the category of its kind |
| `TreasuryEffects.ColumnsByDocument` | backend/app/finance/service.py:960-980 | over every run the day book's columns, picked by category and direction, are the movements of invoices, expenses, transfers and handovers, and the two other columns are exactly their reversals and the handovers received |
| `TreasuryEffects.StepConfigured` | backend/app/finance/service.py:108-370 | only custody accounts have no branch, openings are not negative, and a tender is mapped to an existing account of its branch or of none |
| `TreasuryEffects.PaymentsStayInBranch` | backend/app/finance/service.py:276-354 | over every run the money of a sale reaches accounts of its own branch, or of no branch, and no others |
| `TreasuryRuns.RunAhead` | backend/app/finance/service.py:204-801 | over any run the ledger only grows, accounts keep kind, branch and opening, documents keep their parties and amounts, and a void, a reversal and a confirmation are final |
| `TreasuryRuns.ReversedForever` | backend/app/finance/service.py:538-801 | a document voided, reversed or confirmed once is refused for good, whatever happens in between |
| `TreasuryRuns.HandoverEndToEnd` | backend/app/finance/service.py:696-778 | the cash leaves the sender when the handover is recorded; whenever it is confirmed, what was counted reaches the receiver it was recorded for and no other account, and the record shows the amount, the shortfall and whether it is disputed |
| `TreasuryRuns.TransferEndToEnd` | backend/app/finance/service.py:597-678 | a transfer moves its amount from one account to the other, and reversing it at any later time moves exactly that back |
| `FinanceService.Service.PostMovement` | backend/app/finance/service.py:204-242 | appends exactly that movement, if and only if the amount is positive and the account exists and is active |
| `FinanceService.Service.ReverseMovement` | backend/app/finance/service.py:244-260 | appends a movement that mirrors the original, dated now, or changes nothing |
| `FinanceService.Service.ReverseReference` | backend/app/finance/service.py:262-273 | the loop reverses all open movements of a document or none of them; every row it adds is of that document and dated now |
| `FinanceService.Service.OpenAccount` | backend/app/finance/service.py:108-138 | appends exactly the account asked for, active, if and only if branch and opening are in order; sound books stay sound |
| `FinanceService.Service.SetActive` | backend/app/finance/service.py:140-159 | sets that account's flag and changes no other account; sound books stay sound |
| `FinanceService.Service.SetMapping` | backend/app/finance/service.py:327-354 | maps that tender of that branch to that account, if and only if it is active and of the branch or of none, and no other mapping changes; sound books stay sound |
| `FinanceService.Service.DeleteMapping` | backend/app/finance/service.py:356-370 | removes that mapping and no other, or reports it missing; sound books stay sound |
| `FinanceService.Service.PostInvoicePayments` | backend/app/finance/service.py:276-309 | one movement per payment line or, when any line fails, none; the sale's movements then net to the sum of the lines more; sound books stay sound; each account gets the sum of the lines whose tender is mapped to it; accepted if and only if its preconditions hold |
| `FinanceService.Service.VoidInvoice` | backend/app/finance/service.py:262-273 | reverses the sale's payments as a whole; they then net to zero; sound books stay sound; each account gives back what the sale stands for on it; accepted if and only if its preconditions hold |
| `FinanceService.Service.CreateExpense` | backend/app/finance/service.py:431-477 | expense and movement together or neither; the expense is then its amount out; sound books stay sound; the account falls by the amount and no other moves; accepted if and only if its preconditions hold |
| `FinanceService.Service.VoidExpense` | backend/app/finance/service.py:538-563 | marks voided and reverses together or neither; the expense then nets to zero; sound books stay sound; each account gets back what the expense stands for on it; accepted if and only if its preconditions hold |
| `FinanceService.Service.CreateTransfer` | backend/app/finance/service.py:597-631 | the two legs are posted together: the second can no longer fail once the first is in; the transfer nets to zero; sound books stay sound; the one account falls and the other rises by the amount; accepted if and only if its preconditions hold |
| `FinanceService.Service.ReverseTransfer` | backend/app/finance/service.py:651-678 | marks reversed and reverses together or neither; the transfer still nets to zero; sound books stay sound; each account gets back what the transfer stands for on it; accepted if and only if its preconditions hold |
| `FinanceService.Service.CreateHandover` | backend/app/finance/service.py:696-738 | the outgoing leg is posted with the pending handover, which is then its amount out; sound books stay sound; the sender falls by the amount and no other account moves; accepted if and only if its preconditions hold |
| `FinanceService.Service.ConfirmHandover` | backend/app/finance/service.py:740-778 | the fields set before the posting are undone when the posting fails; otherwise the handover nets to what was counted less its amount, or to what was counted when it had been reversed; sound books stay sound; the receiver rises by what was counted and no other account moves; accepted if and only if its preconditions hold |
| `FinanceService.Service.ReverseHandover` | backend/app/finance/service.py:780-801 | reverses whatever legs exist, so the handover nets to zero, and leaves the status alone; sound books stay sound; each account gets back what the handover stands for on it; accepted if and only if its preconditions hold |
| `Grouping.GroupBySums` | backend/app/finance/repository.py:156-170 | grouping loses nothing: a key's total, and the total over any set of keys, is the sum over the rows |
| `Grouping.GroupByKeys` | backend/app/finance/repository.py:156-170 | one group per key and only keys of kept rows |
| `FinanceReports.BalanceBeforeAll` | backend/app/finance/service.py:869-874 | the opening of a window after the last movement is the derived balance |
| `FinanceReports.DayBounds` | backend/app/finance/service.py:863-867 | an instant belongs to the one day whose midnight is the last before or at it |
| `FinanceReports.SumsByAccount` | backend/app/finance/repository.py:111-135 | the one-pass grouped sums are each account's own two sums |
| `FinanceReports.ListBalances` | backend/app/finance/service.py:176-190 | the batched balances equal the per-account derived balances |
| `FinanceReports.SumBeforeIsScan` | backend/app/finance/repository.py:172-185 | the sums grouped by direction give the signed sum of one scan of the ledger |
| `FinanceReports.OpeningIsBalance` | backend/app/finance/service.py:869-874 | the opening computed from that query is the derived balance just before the window |
| `FinanceReports.StatementMovementsOrdered` | backend/app/finance/repository.py:204-215 | the listed movements are the account's, in the window, in time order |
| `FinanceReports.StatementMovementsComplete` | backend/app/finance/repository.py:204-215 | and they are all of them: any column sums to the same over the list and over the ledger's window |
| `FinanceReports.RunningIsBalance` | backend/app/finance/service.py:904-933 | opening plus the rows up to the last row of an instant is the ledger's balance just after that instant |
| `FinanceReports.ClosingIsBalance` | backend/app/finance/service.py:904-933 | opening plus all rows is the ledger's balance just after the window |
| `FinanceReports.StatementRows` | backend/app/finance/service.py:904-933 | each row shows its movement, with the amount as in or as out, and a running balance of opening plus INs minus OUTs up to it; the totals are the sums of the rows |
| `FinanceReports.AccountStatement` | backend/app/finance/service.py:904-933 | closing = opening + total in - total out = the balance just after the window; running balances are ledger balances |
| `FinanceReports.WindowsChain` | backend/app/finance/service.py:904-933 | the closing of one statement is the opening of the statement that starts the next day |
| `FinanceReports.WindowSplits` | backend/app/finance/repository.py:204-215 | what a window lists is what its two parts list, one after the other |
| `FinanceReports.StatementsCompose` | backend/app/finance/service.py:904-933 | the rows of two adjacent statements, one after the other, are the rows of the one statement over both windows: the same movements, amounts and running balances; its totals are their sums, its opening the first one's and its closing the second one's |
| `FinanceReports.AccountCellIsBalance` | backend/app/finance/service.py:960-980 | an account's opening and closing cells are its derived balances as of the window's ends |
| `FinanceReports.ScanIsSumOfAccounts` | backend/app/finance/repository.py:156-170 | a grouped scan over a set of accounts is the sum of the accounts' own scans |
| `FinanceReports.PeriodColumns` | backend/app/finance/service.py:960-980 | every flow column read off the one grouped query is the scan of the ledger for that column |
| `FinanceReports.ComputeDayBookRow` | backend/app/finance/service.py:960-980 | every column is the sum of the accounts' own cells, and opening + money in + transfers in + other in - expenses - handovers - transfers out - other out = closing, reversals included |
| `FinanceReports.AddToBranchGroups` | backend/app/finance/service.py:935-958 | grouping accounts by branch puts each account in one group, the one of its branch |
| `FinanceReports.AddToBranchTotal` | backend/app/finance/service.py:935-958 | grouping neither loses nor repeats an account in any sum |
| `FinanceReports.GroupAccounts` | backend/app/finance/service.py:935-958 | every account is in one group, the one of its branch, and any sum over the groups is the sum over the accounts |
| `FinanceReports.DayBook` | backend/app/finance/service.py:935-958 | branch rows partition the totals row: every column of the totals row is the sum of that column over the branch rows |
| `AccountLocks.OrderedRequestsAscend` | backend/app/finance/service.py:591-595 | transfers, expenses, handovers and confirmations ask for new rows in ascending order only |
| `AccountLocks.SomeoneCanStep` | backend/app/finance/repository.py:43-49 | following the waits-for chain of ascending requests always ends at a transaction that can step |
| `AccountLocks.DeadlockFree` | backend/app/finance/service.py:591-626 | for any number of transactions of any kind whose requests ascend, and any interleaving, while one is unfinished some transaction can step |
| `AccountLocks.OrderedKindsDeadlockFree` | backend/app/finance/service.py:591-626 | so transfers, expenses, handovers and confirmations never deadlock, however many run at once |
| `AccountLocks.CanAlwaysFinish` | backend/app/finance/service.py:591-626 | from every invariant state a schedule of one step per remaining grant or commit finishes everyone |
| `AccountLocks.EveryRunCanFinish` | backend/app/finance/service.py:591-626 | every state reached by transactions whose requests ascend can be driven to completion |
| `AccountLocks.CanDeadlockIff` | backend/app/finance/service.py:204-309 | any number of transactions of any kind, payments and reversals included, can reach a deadlock if and only if their request lists contain a knot: points with nothing before them in common, each next row before another one's point |
| `AccountLocks.TwoCanDeadlockIff` | backend/app/finance/service.py:204-309 | two transactions can deadlock if and only if their request lists cross, which can be read off the payment lines and movements before the calls |
| `AccountLocks.PaymentLinesCanDeadlock` | backend/app/finance/service.py:276-309 | two split payments over the same two accounts in opposite line order can deadlock |
| `AccountLocks.ReversalCanDeadlock` | backend/app/finance/service.py:651-678 | reversing a transfer from a larger to a smaller account can deadlock with a new transfer between them, for all the ordering of transfers |
| `PostingLocks.LocksArePostings` | backend/app/finance/service.py:204-801 | what a transaction locks is exactly what it posts to, account by account and in posting order; only a transfer locks ahead, both its accounts, the smaller identity first |
| `RateLimit.InMemoryRateLimiter.Hit` | backend/app/core/ratelimit.py:49-58 | let in if and only if no window is running or it has counted less than the limit; a refused hit changes nothing, one let in is counted or opens a window now, no other key is touched, and remaining is the limit less the count |
| `RateLimit.InMemoryRateLimiter.Prune` | backend/app/core/ratelimit.py:60-67 | drops exactly the windows opened at least the given length ago, keeps the others as they are, and returns how many it dropped |
| `RateLimit.RetryAfterIsLeast` | backend/app/core/ratelimit.py:49-58 | retry_after is at least one and is the least whole number of seconds after which the same caller is let in |
| `RateLimit.WindowCountsItsAdmissions` | backend/app/core/ratelimit.py:28-41 | over any run the counter of a key's window is the number of hits it admitted, and never exceeds the cap |
| `RateLimit.WindowsDoNotOverlap` | backend/app/core/ratelimit.py:28-41 | a key's windows are at least one window length apart |
| `RateLimit.WindowBound` | backend/app/core/ratelimit.py:28-41 | every fixed window that ever opens admits at most the limit over the whole run |
| `RateLimit.SlidingBound` | backend/app/core/ratelimit.py:28-58 | any half-open interval of one window length admits at most twice the limit |
| `RateLimit.HitDecision` | backend/app/core/ratelimit.py:28-58 | exactly which hits are let in: the first `Cap` of the hits its window has seen, where a hit opens a window if none is running; and it is told the limit less its place in the window |
| `RateLimit.RefusedIff` | backend/app/core/ratelimit.py:28-58 | a hit is refused if and only if the key's window is still running and has let in exactly the cap |
| `RateLimit.RemainingIs` | backend/app/core/ratelimit.py:49-58 | what a caller is told remains is the limit less what the window has let in by then, itself included |
| `RateLimit.PruningIsUnobservable` | backend/app/core/ratelimit.py:60-67 | with prunes no shorter than any rule's window and a non-decreasing clock, every caller sees what a limiter that never prunes would have shown |
| `RateLimit.PrunedSlidingBound` | backend/app/core/ratelimit.py:49-67 | the sliding bound holds with prunes interleaved |
| `RateLimit.EarlyPruneIsObservable` | backend/app/core/ratelimit.py:60-67 | the bound on prunes is needed: a shorter one lets a refused caller in |
| `RateLimit.MiddlewareBound` | backend/app/core/middleware.py:56-96 | end to end, with the middleware's keys, rules and prune every thousandth call, a client gets at most twice its rule's limit through in any window length |
| `RateLimit.KeysSeparate` | backend/app/core/middleware.py:56-96 | two requests share a window if and only if they come from one client and are both for logging in, or both not |
| `RateLimit.MiddlewareDecision` | backend/app/core/middleware.py:56-96 | end to end with the middleware's keys, rules and prunes: a request is let in if and only if it is among the first `Cap` hits of its client's current window, and is told what remains |
| `Signals.AddRow` | backend/app/intelligence/signals.py:45-77 | one row is appended to the one bucket it belongs to and to no other |
| `Signals.BuildSnapshot` | backend/app/intelligence/signals.py:45-77 | every bucket lists exactly the rows that belong to it, in their order |
| `Signals.Deduplicate` | backend/app/intelligence/signals.py:80-113 | same members, each once, in the order of their first occurrence |
| `Signals.Collect` | backend/app/intelligence/signals.py:80-113 | what is collected is the buckets the context looks in and nothing else: global, supplier, its country, origin, tags, in that order |
| `Signals.MatchContext` | backend/app/intelligence/signals.py:80-113 | the answer is that collection, each adjustment once, in the order of first occurrence |
| `Signals.NormalMeaning` | backend/app/intelligence/signals.py:45-77 | two country texts are normalised alike if and only if they name the same country: by their ISO codes as far as they have one, else by their text |
| `Signals.AppliesIffLookedIn` | backend/app/intelligence/signals.py:80-113 | a row satisfies the direct predicate if and only if the context looks in the row's bucket |
| `Signals.Answer` | backend/app/intelligence/signals.py:45-113 | the index answers like a scan: exactly the adjustments of the rows that apply, each once, on several axes and with repeated tags |
| `Stock.ActiveIsHeld` | backend/app/repositories/reservation_repo.py:58-67 | a line has one active hold at most, and that is what the line holds |
| `Stock.HoldIsBacked` | backend/app/models/inventory.py:66-73 | an active hold is covered by goods on hand on its row |
| `Stock.WriteSoundIff` | backend/app/services/inventory_service.py:105-146 | a goods write keeps on-hand equal to the ledger, and keeps the stock sound if and only if availability stays non-negative |
| `Stock.ReceiveSound` | backend/app/services/inventory_service.py:105-146 | a receipt keeps the stock sound and changes one row by exactly the quantity |
| `Stock.IssueSound` | backend/app/services/inventory_service.py:203-258 | an accepted issue keeps the stock sound, never touching what others hold |
| `Stock.ReserveSound` | backend/app/repositories/reservation_repo.py:36-56 | a hold within availability moves no goods and adds exactly its quantity to the row and to the line |
| `Stock.ConsumeSound` | backend/app/repositories/reservation_repo.py:69-92 | consuming takes exactly the smaller of the quantity and the hold off the row and the line; the floor at zero never bites |
| `Stock.ReleaseSound` | backend/app/repositories/reservation_repo.py:94-116 | a release returns exactly the whole hold |
| `Stock.IssueWithinHold` | backend/app/services/inventory_service.py:284-380 | issuing up to a line's own hold never fails and takes exactly that much off the shelf and off the hold |
| `Stock.IssueAgainstIff` | backend/app/services/inventory_service.py:284-380 | issuing for a line goes through if and only if the quantity is positive and at most what is free plus what the line itself holds on that row; it draws on the line's own hold first and on nothing that others hold |
| `Stock.TransferSound` | backend/app/services/inventory_service.py:429-529 | a transfer moves exactly its quantity between two rows and touches no document |
| `Stock.AdjustSoundIff` | backend/app/services/inventory_service.py:383-426 | an adjustment looks at on-hand only: it keeps holds backed if and only if the free stock covers it |
| `Stock.AdjustBreaksPromise` | backend/app/services/inventory_service.py:383-426 | taking one unit off a row whose goods are all held is accepted and leaves a hold without goods |
| `Consignment.DeliverSound` | backend/app/customer_delivery/service.py:113-185 | dispatching a consignment holds every part line in full, moves no goods and touches no other document |
| `Consignment.DeliverAcceptedIff` | backend/app/customer_delivery/service.py:113-185 | a draft goes out if and only if it is a sale delivery or every row has free all that its part lines ask for together; nothing but its status changes |
| `Consignment.ReconcilePartSound` | backend/app/customer_delivery/service.py:245-262 | with the hold in place, reconciling within it never fails: on-hand falls by exactly the sold part and the hold by sold plus returned |
| `Consignment.SettleLineFigures` | backend/app/customer_delivery/service.py:195-208 | for any reported figures 0 <= settled + returned <= qty and figures only grow; a part line moves by the figures clamped to what is outstanding, a motorcycle is sold or returned as reported |
| `Consignment.SettleLineSound` | backend/app/customer_delivery/service.py:188-243 | settling one line fails only for a sold motorcycle without an invoice, and its effect on the stock is exactly the change of its figures |
| `Consignment.SettleFromSound` | backend/app/customer_delivery/service.py:188-243 | over all lines: on-hand plus what is settled stays constant and each remaining hold is what is outstanding |
| `Consignment.SettleFromLines` | backend/app/customer_delivery/service.py:195-208 | every line does as its report says; unreported lines are left alone, reconciled lines are untouched |
| `Consignment.SettleSound` | backend/app/customer_delivery/service.py:188-243 | a settle succeeds if and only if every reported sold motorcycle has its invoice; remaining holds are exactly qty - settled - returned, on-hand falls by exactly what was settled, each line is recorded as reported, and the status is open while anything is outstanding, else settled unless all came back |
| `Issuance.IssueLoanSound` | backend/app/issuance/service.py:104-147 | on-hand falls by exactly the consumables and every other part line is held in full |
| `Issuance.IssueAcceptedIff` | backend/app/issuance/service.py:104-147 | a draft is issued if and only if its consumables are known and every row has free all that its part lines ask for together |
| `Issuance.SettlePartReturnSound` | backend/app/issuance/service.py:217-232 | closing a line never fails: the missing part leaves the shelf, the rest of the hold is released, nothing stays held |
| `Issuance.ReturnLineFigures` | backend/app/issuance/service.py:150-215 | for any reported figure a line closes with the figure clamped to what was lent, returned + missing = qty, and a closed line is not touched |
| `Issuance.ReturnLineSound` | backend/app/issuance/service.py:150-215 | one line's return has exactly the effect its figures say |
| `Issuance.ReturnFromSound` | backend/app/issuance/service.py:150-215 | over all lines: on-hand plus recorded missing stays constant, open lines still hold their full quantity |
| `Issuance.ReturnSound` | backend/app/issuance/service.py:150-215 | a return never fails, takes exactly the newly missing quantities off the shelf and settles no line twice |
| `Issuance.ReturnedIff` | backend/app/issuance/domain/status.py:32-39 | a return marks the issuance returned if and only if it reports every line that still awaits its return, part or motorcycle |
| `Issuance.HeldAfterReturn` | backend/app/issuance/service.py:150-215 | after a return a part line still holds goods if and only if it is not consumable, was not closed before and is not reported |
| `Issuance.ReturnedHoldsNothingIff` | backend/app/issuance/service.py:150-215 | the return that closes an issuance leaves nothing held if and only if every part line that is neither returnable nor consumable was closed before or is in the report; otherwise exactly those lines stay held and no further return is accepted |
| `Issuance.StrandedExample` | backend/app/issuance/domain/status.py:32-39 | five lent on such a line: a return that reports nothing marks the issuance returned with all five still held |
| `Dispatch.FiguresReconcile` | backend/app/dispatch/service.py:162-236 | for any reported figures received + damaged + missing = dispatched, and figures that fit are kept |
| `Dispatch.DispatchConserves` | backend/app/dispatch/service.py:123-159 | dispatch moves goods from the shelf into transit, product by product, and loses none |
| `Dispatch.DispatchShelves` | backend/app/dispatch/service.py:123-159 | an accepted dispatch takes exactly the note's parts off the source's shelves and touches no other row |
| `Dispatch.DispatchAcceptedIff` | backend/app/dispatch/service.py:123-159 | a draft is dispatched if and only if its source and parts are known and the source has all of each part free |
| `Dispatch.ReceiveShelves` | backend/app/dispatch/service.py:162-236 | an accepted receipt puts exactly the recorded received quantities on the destination's shelves and touches no other row |
| `Dispatch.ReceiveRecords` | backend/app/dispatch/service.py:162-236 | each line records its report clamped to what was dispatched, each motorcycle as arrived or missing, and the note is received if and only if every line is in full |
| `Dispatch.ReceiveAccepted` | backend/app/dispatch/service.py:162-236 | with its parts and destination known, a note is received if and only if it is in transit or partly received |
| `Dispatch.ReceiveExcess` | backend/app/dispatch/service.py:162-236 | what a receipt shelves beyond what was off the shelf is exactly what an earlier receipt had recorded |
| `Dispatch.ReceiveConservesIff` | backend/app/dispatch/service.py:162-236 | a receipt conserves goods if and only if no part line has a received quantity on record; the first one always does |
| `Dispatch.SecondReceiptDuplicates` | backend/app/dispatch/domain/status.py:22 | ten dispatched, six received, received again: ten more on the shelf |
| `Dispatch.CreateSound` | backend/app/dispatch/service.py:65-120 | a new note's motorcycles are at the source or unplaced and on no other open note |
| `Dispatch.CreateIff` | backend/app/dispatch/service.py:65-120 | a note is created if and only if its warehouses are known and differ, its parts are known and its motorcycles are listed once, unsold, at the source or unplaced and on no open note; it lists exactly what was asked for |
| `Dispatch.DispatchBikes` | backend/app/dispatch/service.py:123-159 | each motorcycle of a dispatched note is at no location, and no other unit moves |
| `Dispatch.ReceiveBikes` | backend/app/dispatch/service.py:162-236 | after a receipt each motorcycle is at the destination or, reported missing, back at the source |
| `BikeIssues.OpenSound` | backend/app/bike_issues/service.py:71-105 | opening puts the unit on hold with its prior status recorded; no unit has two active issues |
| `BikeIssues.OpenIff` | backend/app/bike_issues/service.py:71-105 | an issue is opened if and only if the unit is sellable and in stock and the parts are known; its lines are those requested, line by line |
| `BikeIssues.AddLineIff` | backend/app/bike_issues/service.py:108-116 | a known part is added to an active issue, last and as requested, and the other lines stay |
| `BikeIssues.RemoveLineIff` | backend/app/bike_issues/service.py:118-131 | exactly that line is dropped, if it exists and is not consumed, from an active issue; the others stay in order |
| `BikeIssues.SetStatusIff` | backend/app/bike_issues/service.py:134-151 | the status stays or moves from open to in repair; nothing else is accepted |
| `BikeIssues.EditSound` | backend/app/bike_issues/service.py:108-151 | adding and removing lines and changing status deduct nothing and move no unit |
| `BikeIssues.ConsumeLinesSound` | backend/app/bike_issues/service.py:154-194 | with known parts the deductions succeed if and only if every row covers the sum of the lines drawn on it, in any order of lines |
| `BikeIssues.ResolveDeducts` | backend/app/bike_issues/service.py:154-194 | a resolved issue has deducted exactly the sum of its lines on each row |
| `BikeIssues.ResolveSound` | backend/app/bike_issues/service.py:154-194 | resolve succeeds if and only if the stock covers all lines, deducts exactly their sum and gives the unit back exactly its prior status |
| `BikeIssues.ResolveLines` | backend/app/bike_issues/service.py:154-194 | a resolved issue has its lines and then the extra ones, all consumed |
| `BikeIssues.ReleaseKeepsHeld` | backend/app/bike_issues/service.py:219-237 | closing one issue frees its own unit and leaves every other active issue's unit on hold |
| `ImportStock.WithoutJobElsewhere` | backend/app/imports/service.py:566-573 | deleting a job's movements leaves alone the ledger of a row the job did not touch |
| `ImportStock.WithoutJobAlone` | backend/app/imports/service.py:566-573 | and empties the ledger of a row that only the job touched |
| `ImportStock.GuardMeans` | backend/app/imports/repository.py:285-302 | a row that passes the guard has only the job's movements: nothing reserved, and on-hand is the job's sum |
| `ImportStock.RollbackRow` | backend/app/imports/service.py:547-588 | after a rollback an affected row is empty with an empty ledger, and every other row is unchanged |
| `ImportStock.RollbackIff` | backend/app/imports/service.py:547-588 | a rollback is accepted if and only if nothing else touched the rows the job did and nothing else names a product it created; it takes away exactly those products, the job's movements and the job's quantities |
| `ImportStock.RollbackSoundIff` | backend/app/imports/service.py:547-588 | a rollback keeps the stock sound if and only if no surviving affected row has damaged goods; holds are seen by the guard through their reserve movements |
| `ImportStock.OtherBlocksRollback` | backend/app/imports/service.py:557-563 | any other movement on an affected row refuses the whole rollback |
| `ImportStock.RollbackInverse` | backend/app/imports/service.py:547-573 | a rollback that passes its guard puts the row's on-hand and ledger back to before the job's first write to it |
| `StockSystem.StepForSound` | backend/app/customer_delivery/service.py:113-262 | a step for one document leaves every other document in agreement with the stock |
| `StockSystem.InventoryStepSound` | backend/app/services/inventory_service.py:105-529 | plain receipts, issues and transfers keep the whole invariant |
| `StockSystem.DeliveryStepSound` | backend/app/customer_delivery/service.py:52-273 | every consignment step keeps the whole invariant, other services' documents included |
| `StockSystem.LoanStepSound` | backend/app/issuance/service.py:60-243 | every loan step keeps it |
| `StockSystem.NoteStepSound` | backend/app/dispatch/service.py:65-247 | every dispatch step keeps it |
| `StockSystem.RepairStepSound` | backend/app/bike_issues/service.py:71-194 | every repair step keeps it |
| `StockSystem.ImportStepSound` | backend/app/imports/service.py:156-173 | every import step keeps it, rollback included |
| `StockSystem.StepSound` | backend/app/customer_delivery/service.py:113-262 | every call of every service, accepted or refused, keeps the invariant, and only a rollback removes ledger rows |
| `StockSystem.ReachableSound` | backend/app/services/inventory_service.py:105-529 | over every interleaving on-hand is the sum of its movements, reserved the sum of active holds, available never negative, and each document agrees with what it holds and has deducted |
| `StockRuns.HoldIsOwned` | backend/app/repositories/reservation_repo.py:36-56 | every active hold belongs to a line of a dispatched consignment or an issued loan |
| `StockRuns.ReservedIsOutstanding` | backend/app/models/inventory.py:66-73 | reserved on a row is exactly what its consignments have outstanding plus what its loans still have out, document by document, and on-hand covers it |
| `StockRuns.RunAhead` | backend/app/customer_delivery/service.py:188-243 | over any run documents are never lost and their lines only move forward |
| `StockRuns.ReconciledForever` | backend/app/customer_delivery/service.py:188-262 | over any run a fully reconciled consignment line holds nothing, never changes, and its deduction stays exactly what it settled |
| `StockRuns.ClosedForever` | backend/app/issuance/service.py:150-232 | over any run a returned loan line is never settled twice and holds nothing |
| `StockRuns.StrandedForever` | backend/app/issuance/service.py:150-243 | what a returned issuance still holds it holds over every run: nothing in the system releases it |
| `StockRuns.RepairGivesBack` | backend/app/bike_issues/service.py:71-237 | whatever happens in between, the unit is on hold while the issue is active and resolve gives it the status it had before the issue was opened |
| `StockRuns.StepGoods` | backend/app/dispatch/service.py:123-236 | every step of every service changes the goods of a product by exactly what it puts on or takes off the shelves outside notes, plus what it receives a second time |
| `StockRuns.DispatchConservesGoodsIff` | backend/app/dispatch/service.py:123-236 | over any run of all services shelves + in transit + recorded missing and damaged changes by exactly the net goods of everything but notes if and only if no note is received again after some of the product was recorded as received; otherwise the surplus is exactly those records |
| `StockRuns.DispatchAloneConservesIff` | backend/app/dispatch/service.py:123-236 | over a run of dispatch steps alone the goods of a product are constant under the same condition |
| `StockRuns.RunKeepsLedger` | backend/app/imports/service.py:547-573 | once a job has written to a row, nothing but that job's own rollback takes rows out of the row's ledger |
| `StockRuns.RollbackRestores` | backend/app/imports/service.py:547-588 | from just before a job's first write to a row, through any run, an accepted rollback of the job restores that row's on-hand and ledger |
| `StockRequests.DraftDeliveryIff` | backend/app/customer_delivery/service.py:52-110 | a delivery is drafted if and only if warehouse, parts and units are known, quantities positive and units unsold; it lists exactly what was asked for |
| `StockRequests.DraftLoanIff` | backend/app/issuance/service.py:60-101 | the same for an issuance, where a consumable is never returnable and a motorcycle always is |
| `StockRequests.DraftNoteIff` | backend/app/dispatch/service.py:65-120 | the same for a dispatch note, whose motorcycles are none of those on record as sold |
| `StockRequests.OpenRepairIff` | backend/app/bike_issues/service.py:71-105 | the same for a repair, whose unit is then on hold |
| `StockRequests.CancelIff` | backend/app/customer_delivery/service.py:264-273 | a delivery, an issuance and a note are cancelled if and only if they are drafts, and only their status changes |
| `StockRequests.JobIff` | backend/app/imports/service.py:547-588 | a job is started once, finished while it runs, and rolled back once when complete; a rollback also forgets what the job created |
| `StockRequests.ProductIff` | backend/app/imports/service.py:156-173 | a running job brings in a product if and only if it is not there yet, and only then is it the job's |
| `StockRequests.ReceiptIff` | backend/app/services/inventory_service.py:105-146 | a plain receipt raises exactly its row by its quantity |
| `StockRequests.PlainIssueIff` | backend/app/services/inventory_service.py:203-258 | a plain issue goes through if and only if the row has the quantity free, and lowers exactly that row |
| `StockRequests.TransferIff` | backend/app/services/inventory_service.py:429-529 | a transfer goes through if and only if the source row has the quantity free, and moves it between those two rows |
| `StockRequests.OpeningStockIff` | backend/app/imports/service.py:156-173 | opening stock of a running job reaches its row with a movement of that job; a quantity of zero or less is skipped |
| `StockRequests.EditsAlong` | backend/app/bike_issues/service.py:108-131 | over any run the lines of an active repair draw what they did, plus what was added, less what was removed |
| `StockRequests.RepairEndToEnd` | backend/app/bike_issues/service.py:71-194 | whatever happens in between, resolving a repair takes off each row exactly the lines it was opened with, plus those added since, less those removed, plus the extra ones |
| `StockRequests.RollbackKeepsNamed` | backend/app/imports/service.py:575-588 | no accepted rollback takes away a product that any delivery, loan, note or repair names |
| `StockRequests.StepKnown` | backend/app/dispatch/service.py:65-236 | every step of every service keeps the parts and the destination of every note known |
| `StockRequests.ReceiveNeverFails` | backend/app/dispatch/service.py:162-236 | over every run of all services a note in transit or partly received can be received, whatever is reported |
| `StockRequests.RollbackRemovesProducts` | backend/app/imports/service.py:547-588 | a product an import brought in leaves when the import is rolled back, however much has run in between; one that was there before, or another import's, stays |
| `InventoryService.Inventory.ReceiveStock` | backend/app/services/inventory_service.py:105-146 | row, version and movement are exactly those of the receipt, or nothing; a sound stock stays sound |
| `InventoryService.Inventory.IssueStock` | backend/app/services/inventory_service.py:203-258 | goes through if and only if the row exists and has the quantity free; row, version and movement are exactly those of the issue |
| `InventoryService.Inventory.ReserveStock` | backend/app/repositories/reservation_repo.py:36-56 | reserved, the hold and its movement, exactly; a sound stock stays sound and no goods move |
| `InventoryService.Inventory.ConsumeHold` | backend/app/repositories/reservation_repo.py:69-92 | takes exactly the smaller of quantity and hold off row and hold, with its movement, and keeps the remainder active |
| `InventoryService.Inventory.ReleaseHold` | backend/app/repositories/reservation_repo.py:94-116 | the whole hold goes back to available, with its movement, and is closed |
| `InventoryService.Inventory.IssueAgainstReservation` | backend/app/services/inventory_service.py:284-380 | goes through if and only if free stock plus the line's own hold cover it; draws on the own hold first and keeps the stock sound |
| `InventoryService.Inventory.AdjustStock` | backend/app/services/inventory_service.py:383-426 | refused if and only if on-hand would fall below zero; row, version and movement exactly; a sound stock stays sound if and only if availability covers it |
| `InventoryService.Inventory.Transfer` | backend/app/services/inventory_service.py:429-529 | goes through if and only if the source row has the quantity free; both rows and both movements, exactly |
| `InventoryService.Inventory.SetInitialStock` | backend/app/imports/service.py:156-173 | opening stock and the movement that explains it, exactly; a sound stock stays sound |
| `StockServices.ConsignmentService.Deliver` | backend/app/customer_delivery/service.py:113-185 | holds all part lines or, when one cannot be held, none; on-hand is unchanged, every consignment in the table stays in agreement with the stock, and it goes through if and only if every row has enough free |
| `StockServices.ConsignmentService.ReconcilePart` | backend/app/customer_delivery/service.py:245-262 | a real deduction for the sold part, a partial release for the returned part; within the hold it never fails and lowers on-hand and hold by exactly those |
| `StockServices.ConsignmentService.SettleLine` | backend/app/customer_delivery/service.py:195-240 | one line's movements and figures together; the line does as reported and stock moves by exactly the change of its figures |
| `StockServices.ConsignmentService.Settle` | backend/app/customer_delivery/service.py:188-243 | all lines in place, or the tables as they were; it fails if and only if a sold motorcycle has no invoice; each line is recorded as reported, on-hand falls by what was settled, and every consignment stays in agreement with the stock |
| `StockServices.IssuanceService.Issue` | backend/app/issuance/service.py:104-147 | consumables out and the rest held, or nothing; on-hand falls by exactly the consumables, every issuance in the table stays in agreement with the stock, and it goes through if and only if every row has enough free |
| `StockServices.IssuanceService.SettlePartReturn` | backend/app/issuance/service.py:217-232 | the loss from the hold, then the rest released: with the hold in place it never fails, takes exactly the loss off the shelf and leaves nothing held |
| `StockServices.IssuanceService.ReturnLine` | backend/app/issuance/service.py:157-205 | one line closed with its figures; with its hold in place it never fails and moves stock by exactly what the figures say |
| `StockServices.IssuanceService.ReturnItems` | backend/app/issuance/service.py:150-215 | all lines in place, or the tables as they were; on an issued loan it never fails; each line is closed as reported, on-hand falls by what is missing, and every issuance stays in agreement with the stock |
| `StockServices.DispatchService.Create` | backend/app/dispatch/service.py:65-120 | checks parts, then motorcycles one by one, and creates no note when one is refused; the note lists exactly what was asked for, and no motorcycle is on two open notes |
| `StockServices.DispatchService.Dispatch` | backend/app/dispatch/service.py:123-159 | all parts issued and all motorcycles off their location, or nothing; the parts leave exactly the source's shelves, no goods are lost, and it goes through if and only if the source has them all free |
| `StockServices.DispatchService.ReceiveLine` | backend/app/dispatch/service.py:169-220 | one line's figures, shelf and location together; the figures add up to what was dispatched and the shelves gain exactly what was received |
| `StockServices.DispatchService.Receive` | backend/app/dispatch/service.py:162-236 | all lines in place, or the tables as they were; exactly the recorded quantities reach the destination's shelves, each line is recorded as reported, and goods are conserved if and only if nothing was recorded as received before |
| `StockServices.RepairService.BuildLines` | backend/app/bike_issues/service.py:240-248 | refuses an unknown product or warehouse; lines start not consumed |
| `StockServices.RepairService.Open` | backend/app/bike_issues/service.py:71-105 | issue and hold together, with exactly the lines requested, if and only if the unit is sellable and the parts are known; no unit gets a second active issue |
| `StockServices.RepairService.AddLine` | backend/app/bike_issues/service.py:108-116 | appends exactly the line asked for, on an active issue; nothing is deducted and no unit moves |
| `StockServices.RepairService.RemoveLine` | backend/app/bike_issues/service.py:118-131 | drops exactly that line, if not consumed, from an active issue; nothing is deducted and no unit moves |
| `StockServices.RepairService.SetStatus` | backend/app/bike_issues/service.py:134-151 | only along the status graph, never to resolved; nothing is deducted and no unit moves |
| `StockServices.RepairService.ReleaseUnit` | backend/app/bike_issues/service.py:219-237 | gives a unit on hold its prior status back, and leaves every other unit, and one that somebody else has moved, alone |
| `StockServices.RepairService.ConsumeAll` | backend/app/bike_issues/service.py:170-184 | deducts and marks line by line up to the first short part |
| `StockServices.RepairService.Resolve` | backend/app/bike_issues/service.py:154-194 | all parts deducted, unit released to its prior status and issue closed, or everything as it was; it succeeds if and only if the stock covers the lines |
| `StockServices.RollbackService.PairQuantities` | backend/app/imports/service.py:552-555 | the job's summed quantity for exactly the rows it touched |
| `StockServices.RollbackService.ReverseStock` | backend/app/imports/service.py:565-570 | each affected row loses exactly the job's sum |
| `StockServices.RollbackService.DeleteMovements` | backend/app/imports/service.py:571-573 | exactly the other movements are left, in order |
| `StockServices.RollbackService.Rollback` | backend/app/imports/service.py:547-588 | guard, reversal and product deletion as a whole, or nothing; accepted if and only if nothing else touched the job's rows or names its products; the stock stays sound if and only if no surviving affected row has damaged goods |
| `ImportCache.FindMeaning` | backend/app/imports/repository.py:144-148 | a lookup returns a match and never misses one |
| `ImportCache.ResolveMeaning` | backend/app/imports/service.py:80-142 | what one request gets: nothing for an empty name, else the pending or the cached identifier, else the oldest entity that answers to the name, cached, else a new pending entity of exactly that name if the options allow it |
| `Text.StripMeaning` | backend/app/imports/service.py:86-104 | stripping takes away exactly the spaces at the two ends |
| `Text.LowerMeaning` | backend/app/imports/service.py:86-104 | two names share a key if and only if they differ at most in the case of their letters |
| `ImportCache.ResolveAllAlong` | backend/app/imports/service.py:80-142 | within a row the store and cache only grow, pending is exactly what the row made, and no key is both pending and cached |
| `ImportCache.AllTracked` | backend/app/imports/service.py:80-142 | every key known was asked for in the row, and every new entity was made for the first use of its name |
| `ImportCache.LeakMeansAlias` | backend/app/imports/service.py:86-102 | an entry for an entity of the current row can only come from a warehouse name that is the code of another warehouse made in that row |
| `ImportCache.AliasMeansLeak` | backend/app/imports/service.py:86-102 | and such a name always causes one |
| `ImportCache.RowCoherentIff` | backend/app/imports/service.py:73-78 | a committed row keeps the cache coherent; a rolled-back row does if and only if it uses no such name |
| `ImportCache.RowGrows` | backend/app/imports/service.py:73-78 | no row removes or rebinds a cache entry, or revives an entity that is gone |
| `ImportCacheRuns.RunCoherentIff` | backend/app/imports/service.py:524-534 | over any rows every cache entry names an entity really in the store if and only if no rolled-back row uses such a name |
| `ImportCacheRuns.OneWarehousePerRow` | backend/app/imports/targets/inventory.py:120-151 | an importer that resolves one warehouse a row, as the inventory import does, never leaves a dangling entry |
| `ImportCacheRuns.CacheStable` | backend/app/imports/service.py:73-84 | a cached key keeps its identifier over any rows |
| `ImportCacheRuns.ResolvedForever` | backend/app/imports/service.py:80-84 | a key once cached resolves to the same entity for the rest of the run and changes nothing |
| `ImportCacheRuns.ResolvedTwice` | backend/app/imports/service.py:80-142 | a name just resolved resolves to the same entity until the row ends, and after it when the row commits |
| `ImportCache.AliasDangles` | backend/app/imports/repository.py:150-154 | a 65-letter name and then its first 64 letters, in a row that fails, leave a dangling entry |
| `ImportService.Repository.Find` | backend/app/imports/repository.py:144-148 | the scan returns the oldest entity that answers to the name, and misses none |
| `ImportService.Repository.Create` | backend/app/imports/repository.py:150-154 | a new entity under an identifier never used before |
| `ImportService.ImportContext.ResolveWarehouse` | backend/app/imports/service.py:86-102 | default name, pending, cache, oldest match, then creation of exactly that name if allowed; at most one table changes |
| `ImportService.ImportContext.ResolveSupplier` | backend/app/imports/service.py:104-120 | the same for suppliers, linking only when creation is off |
| `ImportService.ImportContext.GetOrCreateTaxonomy` | backend/app/imports/service.py:128-142 | the same for categories and brands |
| `ImportService.ImportContext.CommitRow` | backend/app/imports/service.py:73-75 | pending entries are promoted and nothing stays pending |
| `ImportService.ImportContext.RollbackRow` | backend/app/imports/service.py:77-78 | nothing stays pending |
| `ImportRunner.BatchesAreTheLoop` | backend/app/imports/runner.py:113-150 | the batched run's progress is the simple loop's on the rows processed |
| `ImportRunner.WhereBatchesStop` | backend/app/imports/runner.py:113-123 | the run is cancelled if and only if some check saw the cancellation, and then exactly the whole batches before the first such check have run |
| `ImportRunner.RunRefinesLoop` | backend/app/imports/runner.py:79-186 | session, error rows and counters equal the sequential loop's on the processed prefix; completed means every row was processed |
| `ImportRunner.CancelTakesEffectIff` | backend/app/imports/runner.py:113-162 | a cancellation written once some rows are in ends the job cancelled if and only if the last batch has not started by then, after finishing the batch it arrived in; otherwise every row is processed |
| `ImportRunner.LateCancelOverwritten` | backend/app/imports/runner.py:153-162 | a cancellation during the last batch is on the record when the run ends and is overwritten by completed, with all rows in |
| `ImportRunner.RunCountersAddUp` | backend/app/imports/runner.py:132-139 | imported + skipped + errors = processed, cancelled or not |
| `ImportRunner.NoKeyTwice` | backend/app/imports/service.py:516-522 | no key reaches the importer twice in one run |
| `ImportRunner.ReachedIff` | backend/app/imports/service.py:499-522 | a row reaches the importer if and only if it is valid and no earlier row with its key did |
| `ImportRunner.RowData` | backend/app/imports/service.py:524-544 | a row that is invalid, a duplicate or raises leaves the tenant's data exactly as it was, whatever was written before it raised; any other leaves what the importer returned |
| `ImportRunner.RunData` | backend/app/imports/service.py:473-544 | a run leaves the data that exactly the rows that reached the importer and did not raise make of it, one after the other |
| `ImportRunner.RunCounts` | backend/app/imports/service.py:473-544 | imported and skipped count exactly the rows the importer said so of, and every other row is an error |
| `ImportRunner.RunReports` | backend/app/imports/service.py:473-544 | each row's reports stand in the run's list in row order, under its number and key: every validation error, one for a duplicate, every reason, the message of a failure, and none for an imported row |
| `ImportRunner.JobOutcome` | backend/app/imports/runner.py:79-186 | a finished job's data and counters are those of the rows it processed, from the data it began with; a job not pending, or whose file is gone, writes nothing |
| `ImportRunner.JobReports` | backend/app/imports/runner.py:79-186 | in the error list of a job each processed row's reports stand under its number in the file, where the header is row one |
| `ImportRunner.RunIsCacheRun` | backend/app/imports/service.py:524-534 | to the reference cache a run is one row for each that reached the importer, rolled back if and only if it raised, so what holds of the cache over rows holds of runs |
| `ImportRunner.JobIsCacheRun` | backend/app/imports/runner.py:79-112 | and a job begins with an empty cache over the store as it was |
| `ImportRunner.StepCoherent` | backend/app/imports/service.py:524-534 | a row of an importer that resolves at most one warehouse keeps the cache coherent, whether it commits or not |
| `ImportRunner.RunCoherent` | backend/app/imports/service.py:524-534 | and so does the whole run |
| `ImportJob.Runner.HandleRow` | backend/app/imports/service.py:499-544 | a row that raises leaves the data as it was and any other what the importer returned; the status and the reports are those of its outcome |
| `ImportJob.Runner.ProcessRows` | backend/app/imports/service.py:473-496 | the loop is the sequential fold of the row handler; its data is that of the rows kept, and it counts exactly the imported and the skipped |
| `ImportJob.Runner.Run` | backend/app/imports/runner.py:79-186 | claims a pending job only, fails it when the file is gone, runs batches of 500 with a check before each, and writes the final record, whose counters are those of the rows processed |

## Left out

- Permissions, branch scope, audit rows, notifications, document numbers, names, attachments and PDFs: they do not affect the state the proofs are about.
- Tenants, sessions, SQL and row-level security: the tables are those of one tenant, queries are functions over them.
- Expense categories, the dashboard and the day book's ordering of rows by branch name: a name lookup, a sum already proved, and a sort.
- Floating point: the settle, return and receive figures are exact, so the source's 1e-9 slack becomes a plain comparison.
- Clocks: instants are parameters; the books stamp one reversal or confirmation per tick, so two stamps of different calls differ.
- Text: strip and lower are modelled on ASCII letters and the four common white-space characters.
- Motorcycles in consignments and loans: their lines and outcomes are modelled, the unit's own sale status, hold reason and the check for a second open document are not.
- Fields that no rule reads again: the branch an expense or a handover is filed under, the invoice a sold motorcycle's line names, notes and references.
- Sale deliveries: the invoice lookup that lists the lines, and the manager override for unassembled motorcycles; the lines are a parameter.
- Unit statuses: only repairs move them in the model; sales and the assembly planner are not part of this model.
- Dispatch note types: every note in the model is a transfer, which is all the service accepts.
- Inventory requests with several lines: the services only send one line at a time, and a plain receipt or issue of several is the sequence of them.
- Other writers of on-hand (procurement, order requests, sales, sales returns, stock replay): not part of this model.
- Warehouses and products are never renamed or deleted in the model, except products by a rollback.
- Statement rows of one instant are listed in ledger order, which stands for the source's second sort key, the creation time.
- Import reference tables: a database constraint that fails ends the row, so a row is the requests that returned; among several matches the lookup takes the oldest, where the source takes any.
- Import targets: what a row means is a parameter of the runner; atomic targets with their own plan and commit are not modelled.
- A commit of a batch that fails, and a crash of the run: the job is then marked failed and the proofs about batches do not apply.
- Locks the database takes for foreign keys, and on other rows than accounts, are not part of the deadlock theorems.
