# NeoBank ledger and transfer engine in Dafny

This project models the core of the NeoBank Spring backend. Accounts hold a balance. Every
balance change is recorded as an append-only CREDIT or DEBIT entry in a transaction ledger.
The services on top of that ledger are modelled here:

- opening accounts, deposits, withdrawals and transfers, each guarded by its ownership,
  status and balance checks (`AccountService`);
- the read side: ownership checks, newest-first paging and the mini statement, the
  statement date window, and the analytics totals (`TransactionService`);
- the reconstruction of the opening balance of a statement (`AccountService`), and the
  summary box of the PDF statement (`PdfService`);
- the dashboard overview, monthly summaries and daily series (`DashboardService`);
- the administrator's freeze, unfreeze and user-status operations (`AdminController`);
- the per-user notification inbox (`NotificationService`);
- the statement download's format check and its CSV body (`AccountController`).

The repositories' shared state is a `Store` class (module `Persistence`). Its fields are:

- accounts by id;
- users;
- the ledger, in append order;
- the two identity counters the database uses.

The mutating operations are methods that modify the store and the notification inbox
(`NotificationService.NotificationStore`). They run every check against one snapshot of the
store before they change anything, so a failed operation leaves both stores unchanged; each
such method's `ensures` states this.

Two invariants are kept:

- `Store.Valid`, the structural invariant: rows are keyed by their ids, ledger ids increase,
  and users are unique.
- `Store.Reconciled`: every balance equals the signed sum of its account's ledger entries.

Every mutating operation preserves `Valid`. Every operation except account opening with a
negative deposit preserves `Reconciled` (see below). The read-side services are functions
over a `Snapshot` value.

Amounts are integers in minor units (paise), and `%.2f` is rendered exactly from them.
Timestamps are whole seconds since 1970-01-01T00:00, and day `d` covers seconds
`[86400·d, 86400·d + 86399]`. Nullable columns are `Option`s, and thrown exceptions are
`Failure`s, classified by the HTTP status the exception handler gives them.

Two points about the balance:

- `createAccount` accepts a negative initial deposit as the balance but writes no ledger
  entry for it, so such an account is not reconciled. `AccountService.CreateAccount` states
  this as: reconciliation is kept if and only if the deposit is not negative.
- `createAccount` records a positive initial deposit as a CREDIT entry of its own, so the
  invariant modelled is "balance equals credits minus debits of the ledger", with no
  separate initial-deposit term.

## Model

| member | source | states |
|---|---|---|
| Entities.FindUserByEmail | src/main/java/com/neobankengine/service/AccountService.java:33-34 | a found user is in the table with that e-mail; none found means no user has it |
| Entities.FindUserById | src/main/java/com/neobankengine/service/AccountService.java:216-220 | a found user is in the table with that id; none found means no user has it |
| Entities.FrozenIsInactive | src/main/java/com/neobankengine/controller/AdminController.java:68 | the FROZEN status fails the ACTIVE gate and ACTIVE passes it |
| Ledger.Filter | src/main/java/com/neobankengine/service/PdfService.java:88-89 | the kept rows are exactly those of the input the predicate selects |
| Ledger.FilterConcat | src/main/java/com/neobankengine/service/PdfService.java:88-89 | filtering distributes over concatenation |
| Ledger.SumOfConcat | src/main/java/com/neobankengine/service/PdfService.java:90-91 | a stream sum distributes over concatenation |
| Ledger.SumOfPartition | src/main/java/com/neobankengine/service/AccountService.java:280-286 | a sum splits into the rows a predicate selects and the rows it rejects |
| Ledger.FilterTwice | src/main/java/com/neobankengine/service/TransactionService.java:134-137 | two filters in a row equal one filter by their conjunction |
| Ledger.FilterAgrees | src/main/java/com/neobankengine/service/AccountService.java:281 | filters by pointwise-equal predicates agree |
| Ledger.NetAppend | src/main/java/com/neobankengine/service/AccountService.java:104-113 | appending one entry moves an account's net by that entry's signed amount, and other accounts' nets not at all |
| Ledger.NetIsOwnSignedSum | src/main/java/com/neobankengine/service/AccountService.java:280-286 | the append-order net of an account is the signed sum of its filtered entries |
| Ledger.NetConcat | src/main/java/com/neobankengine/service/AccountService.java:42-52 | the net over two ledgers is the sum of their nets |
| Ledger.NetOfUnmentioned | src/main/java/com/neobankengine/service/AccountService.java:42-52 | an account no entry names has no entries and a zero net |
| Ledger.CreditIsNotDebit | src/main/java/com/neobankengine/service/TransactionService.java:174-180 | no row is both CREDIT and DEBIT |
| Ledger.TypedNetIsSigned | src/main/java/com/neobankengine/service/PdfService.java:88-98 | over rows that are all CREDIT or DEBIT, credits minus debits is the signed sum |
| Ledger.Insert | src/main/java/com/neobankengine/repository/TransactionRepository.java:15 | inserting a row adds exactly that row |
| Ledger.SortNewestFirst | src/main/java/com/neobankengine/repository/TransactionRepository.java:15 | sorting is a permutation of its input |
| Ledger.InsertKeepsOrder | src/main/java/com/neobankengine/repository/TransactionRepository.java:15 | inserting into a newest-first list keeps it newest-first |
| Ledger.SortIsNewestFirst | src/main/java/com/neobankengine/repository/TransactionRepository.java:15 | the sorted list is ordered by timestamp, descending, with null timestamps last |
| Ledger.SumOfInsert | src/main/java/com/neobankengine/repository/TransactionRepository.java:15 | inserting a row adds its value to any sum |
| Ledger.SumOfSorted | src/main/java/com/neobankengine/repository/TransactionRepository.java:15 | sorting changes no sum |
| Persistence.AppendKeepsOrdered | src/main/java/com/neobankengine/service/AccountService.java:104-113 | entries numbered on from the id counter keep the ledger's ids increasing |
| Persistence.PostingKeepsReconciled | src/main/java/com/neobankengine/service/AccountService.java:104-113 | saving an account moved by an entry's signed amount and appending the entry keeps every balance reconciled |
| Persistence.PostingKeepsShape | src/main/java/com/neobankengine/service/AccountService.java:104-113 | the same posting keeps the accounts keyed and the ledger ordered |
| Persistence.OpeningKeepsShape | src/main/java/com/neobankengine/service/AccountService.java:36-52 | opening the next account id with its own entries keeps the store's shape, and no existing row names the new id |
| Persistence.OpeningKeepsReconciled | src/main/java/com/neobankengine/service/AccountService.java:36-52 | a new account keeps the store reconciled exactly when its balance is the net of its own entries |
| AccountService.AmountNotice | src/main/java/com/neobankengine/service/AccountService.java:56 | the `"₹%.2f … %d"` text of a money notification (also lines 117, 167, 251 and 255) starts with the rupee sign |
| AccountService.AmountNoticeReadsBack | src/main/java/com/neobankengine/service/AccountService.java:56 | the amount shown reads back as exactly the amount, the phrase follows it, and the text ends with the digits of the account number |
| AccountService.AmountNoticeParts | src/main/java/com/neobankengine/service/AccountService.java:56 | the text is the rupee sign, the rendered amount, the phrase and the account digits, in that order |
| AccountService.InitialNotices | src/main/java/com/neobankengine/service/AccountService.java:53-58 | one unread "DEPOSIT" notice to the owner exactly when the opening balance is positive |
| AccountService.TransferNotices | src/main/java/com/neobankengine/service/AccountService.java:249-256 | two unread "TRANSFER" notices: the receiver's, numbered one higher, listed above the sender's |
| AccountService.InitialEntries | src/main/java/com/neobankengine/service/AccountService.java:45-52 | one "Initial deposit" credit of the whole balance when it is positive, none otherwise |
| AccountService.CreateAccount | src/main/java/com/neobankengine/service/AccountService.java:32-61 | unknown caller: not found and nothing changes; otherwise a new ACTIVE account under a fresh id with the deposit (0 when absent), its opening credit, the "Initial Deposit" notice, and the account, entry and notification counters advanced by what was added; reconciliation is kept exactly when the deposit is not negative |
| AccountService.OpenAccount | src/main/java/com/neobankengine/service/AccountService.java:36-52 | the account is saved under a fresh id together with its initial entries, with both counters advanced past them, keeping the store valid |
| AccountService.CheckOwnedActive | src/main/java/com/neobankengine/service/AccountService.java:64-79 | passes exactly for an existing ACTIVE account owned by the caller; a non-ACTIVE account fails "Account is not active" |
| AccountService.GetBalance | src/main/java/com/neobankengine/service/AccountService.java:64-82 | the stored balance, for exactly those calls that pass the owner and ACTIVE checks; the missing and inactive failures |
| AccountService.Post | src/main/java/com/neobankengine/service/AccountService.java:104-113 | the account is saved and the entry appended under the next id; validity and reconciliation are kept |
| AccountService.CheckDeposit | src/main/java/com/neobankengine/service/AccountService.java:86-102 | passes exactly for a positive amount on an owned ACTIVE account; a missing or non-positive amount fails first |
| AccountService.Deposit | src/main/java/com/neobankengine/service/AccountService.java:85-121 | a failed check changes nothing; otherwise the balance rises by the amount, one "Deposit" credit is appended, one notice is sent, the entry and notification counters rise by one; reconciliation is kept |
| AccountService.CheckWithdraw | src/main/java/com/neobankengine/service/AccountService.java:124-152 | passes exactly for a positive amount, an owned ACTIVE account, a non-blank caller and a balance covering the amount |
| AccountService.Withdraw | src/main/java/com/neobankengine/service/AccountService.java:124-171 | a failed check changes nothing; otherwise the balance falls by the amount and stays non-negative, one "Withdraw" debit, one notice, the entry and notification counters rise by one; reconciliation is kept |
| AccountService.CheckTransfer | src/main/java/com/neobankengine/service/AccountService.java:179-220 | passes exactly when every one of the transfer's checks holds; an inactive sender or receiver fails with its own message |
| AccountService.NotifyTransfer | src/main/java/com/neobankengine/service/AccountService.java:249-256 | the sender's notice and then the receiver's are added, under the next two notification ids |
| AccountService.Transfer | src/main/java/com/neobankengine/service/AccountService.java:179-259 | a failed check changes nothing; otherwise the sender loses and the receiver gains the amount (their sum unchanged, the sender not negative), a debit then a credit are appended, both owners are notified, the entry and notification counters rise by two; reconciliation is kept |
| AccountService.ApplyTransfer | src/main/java/com/neobankengine/service/AccountService.java:226-247 | both balances move by the amount, and the debit and credit are appended in that order under consecutive ids |
| AccountService.GetBalanceBefore | src/main/java/com/neobankengine/service/AccountService.java:262-293 | no day: the current balance; a day: the current balance less the signed net of entries stamped from that day's start on; an unknown account fails |
| AccountService.OpeningIsNetBeforeCutoff | src/main/java/com/neobankengine/service/AccountService.java:276-291 | for a reconciled account the reconstructed opening is the signed sum of its entries before the cutoff (or without a timestamp) |
| TransactionService.CheckOwner | src/main/java/com/neobankengine/service/TransactionService.java:38-48 | passes exactly when the caller owns the account; each failure carries one of the three messages of that read |
| TransactionService.Newest | src/main/java/com/neobankengine/repository/TransactionRepository.java:15 | the same rows, newest first |
| TransactionService.AccountEntries | src/main/java/com/neobankengine/service/TransactionService.java:58-59 | exactly the account's entries, newest first |
| TransactionService.PageSlice | src/main/java/com/neobankengine/service/TransactionService.java:51-59 | page `n` of size `k` is the run of rows starting at `n·k`, at most `k` long, empty past the end |
| TransactionService.EntryOnItsPage | src/main/java/com/neobankengine/service/TransactionService.java:51-59 | row `i` appears on page `i / k` at position `i % k` |
| TransactionService.SliceKeepsOrder | src/main/java/com/neobankengine/service/TransactionService.java:51-59 | a page of a newest-first list is newest-first |
| TransactionService.GetTransactions | src/main/java/com/neobankengine/service/TransactionService.java:36-70 | succeeds exactly for the owner with a page index of at least 0 and a size of at least 1, and the failures are checked in that order; the content is page `page` of size `size` of the newest-first history, and the page reports that number and size |
| TransactionService.GetLastN | src/main/java/com/neobankengine/service/TransactionService.java:76-106 | succeeds exactly for the owner with a limit of at least 1; the rows are page 0 of size `limit` of the newest-first history |
| TransactionService.LastNAreNewest | src/main/java/com/neobankengine/service/TransactionService.java:90-96 | every row shown is not older than any row of the account left out |
| TransactionService.LastNIsFirstPage | src/main/java/com/neobankengine/service/TransactionService.java:90-96 | the mini statement is page 0 of the history with the limit as page size |
| TransactionService.InWindow | src/main/java/com/neobankengine/service/TransactionService.java:125-139 | the inclusive window: every row with no day given, otherwise a timestamped row at or after the start of `from` and at or before the last second of `to` |
| TransactionService.InWindowAsWritten | src/main/java/com/neobankengine/service/TransactionService.java:133-139 | the window as the queries are written lies inside the inclusive one and misses exactly the row stamped at midnight of `from` in a `from`-only window |
| TransactionService.StatementRows | src/main/java/com/neobankengine/service/TransactionService.java:113-152 | succeeds exactly for the owner with the statement's errors otherwise; newest-first; the same multiset of rows as the account's rows the selector keeps |
| TransactionService.StatementEntries | src/main/java/com/neobankengine/service/TransactionService.java:113-152 | succeeds exactly for the owner; newest-first; the same multiset of rows as the account's rows in the window as written, so a row is included exactly when it is the account's and inside that window |
| TransactionService.CorrectedStatementEntries | src/main/java/com/neobankengine/service/TransactionService.java:133-139 | the same contract over the inclusive window |
| TransactionService.CorrectedOnlyForFromOnly | src/main/java/com/neobankengine/service/TransactionService.java:129-139 | the corrected statement equals the statement as written for every window except a `from`-only one |
| TransactionService.UnboundedStatementIsHistory | src/main/java/com/neobankengine/service/TransactionService.java:131-133 | with no days the statement holds the whole history of the account |
| TransactionService.FilterAll | src/main/java/com/neobankengine/service/TransactionService.java:131-133 | a filter that accepts every row keeps the list |
| TransactionService.BoundedIsNarrowed | src/main/java/com/neobankengine/service/TransactionService.java:134-139 | with the inclusive bounds, the two-day window is the `from` window narrowed by the `to` window |
| TransactionService.MidnightRowDropped | src/main/java/com/neobankengine/service/TransactionService.java:133-137 | a row stamped exactly at the start of `from` is in the inclusive window but not in the `from`-only window as written, while the two-day window as written from that day keeps it |
| TransactionService.RunningIsTotals | src/main/java/com/neobankengine/service/TransactionService.java:172-181 | the loop's running values are the CREDIT and DEBIT totals and counts of the rows |
| TransactionService.TypeSnoc | src/main/java/com/neobankengine/service/TransactionService.java:172-181 | one more row adds its amount and one to the count of its own type only |
| TransactionService.Tally | src/main/java/com/neobankengine/service/TransactionService.java:167-191 | totals and counts of CREDIT and DEBIT rows (null amounts as 0), and the net change is credits minus debits |
| TransactionService.GetAnalytics | src/main/java/com/neobankengine/service/TransactionService.java:158-194 | the statement's own checks and errors; on success the requested account id and the tally of exactly the statement's rows, over the window as written |
| TransactionService.CountsCoverTypedRows | src/main/java/com/neobankengine/service/TransactionService.java:172-181 | the two counts add up to the number of CREDIT-or-DEBIT rows |
| PdfService.StatementSummary | src/main/java/com/neobankengine/service/PdfService.java:88-98 | the opening is the given balance (0 when null), and closing minus opening is credits minus debits |
| PdfService.OtherTypesIgnored | src/main/java/com/neobankengine/service/PdfService.java:88-96 | a row that is neither CREDIT nor DEBIT changes no figure |
| PdfService.TotalsOfPositiveAmounts | src/main/java/com/neobankengine/service/PdfService.java:88-96 | totals of non-negative amounts are non-negative |
| PdfService.NonNegativeSum | src/main/java/com/neobankengine/service/PdfService.java:88-96 | a sum of non-negative amounts is non-negative |
| PdfService.PdfSummary | src/main/java/com/neobankengine/controller/AccountController.java:248-253 | the statement as written: succeeds exactly for the owner with the statement's error otherwise; the opening is the balance `getBalanceBefore` reconstructs for `from` |
| PdfService.CorrectedOpening | src/main/java/com/neobankengine/service/AccountService.java:262-293 | with a `from` day, the reconstructed balance; without one, the balance before every entry; an unknown account fails |
| PdfService.CorrectedPdfSummary | src/main/java/com/neobankengine/controller/AccountController.java:248-253 | succeeds exactly for the owner; the rows of the inclusive window, opened at the corrected opening |
| PdfService.StatementNet | src/main/java/com/neobankengine/controller/AccountController.java:248-249 | for CREDIT/DEBIT-only accounts, a statement's credits minus debits is the signed sum of the account's rows it keeps |
| PdfService.ClosingIsCurrentBalance | src/main/java/com/neobankengine/controller/AccountController.java:248-253 | with the inclusive window and the corrected opening, a statement of a reconciled account from any `from` day or from none closes at its current balance |
| PdfService.ClosingFromDay | src/main/java/com/neobankengine/service/AccountService.java:270-291 | the same for a statement from a given day |
| PdfService.ClosingWithoutDay | src/main/java/com/neobankengine/service/AccountService.java:264-268 | the same for a statement without any day |
| PdfService.MidnightCreditMissingFromClosing | src/main/java/com/neobankengine/service/TransactionService.java:136-137 | a credit of 100 stamped at midnight of `from` gives a closing of 0 as written, against 100 corrected |
| PdfService.UnboundedClosingCountsHistoryTwice | src/main/java/com/neobankengine/service/AccountService.java:264-268 | as written, with no days the opening is the current balance and the rows are the whole history, so a reconciled account closes at twice its balance |
| Calendar.MinusMonths | src/main/java/com/neobankengine/service/DashboardService.java:75 | a valid month exactly `n` months earlier |
| Calendar.NextMonth | src/main/java/com/neobankengine/service/DashboardService.java:75 | the valid month one later |
| Calendar.LengthOfMonth | src/main/java/com/neobankengine/service/DashboardService.java:77 | a month has 28 to 31 days |
| Calendar.YearStep | src/main/java/com/neobankengine/service/DashboardService.java:76-77 | the day count before a year grows by that year's length |
| Calendar.NextMonthFollows | src/main/java/com/neobankengine/service/DashboardService.java:76-77 | the next month starts on the second after this month ends |
| Calendar.EarlierMonthEndsBefore | src/main/java/com/neobankengine/service/DashboardService.java:76-77 | an earlier month's window lies wholly before a later month's |
| DashboardService.OwnedIds | src/main/java/com/neobankengine/service/DashboardService.java:37-39 | exactly the ids of the user's accounts |
| DashboardService.HasLeast | src/main/java/com/neobankengine/service/DashboardService.java:42-44 | every non-empty id set has a least element |
| DashboardService.Least | src/main/java/com/neobankengine/service/DashboardService.java:42-44 | the least element of a non-empty id set |
| DashboardService.SumBalances | src/main/java/com/neobankengine/service/DashboardService.java:42-44 | 0 for no accounts; non-negative when every balance is, non-positive when every balance is |
| DashboardService.SumBalancesWithout | src/main/java/com/neobankengine/service/DashboardService.java:42-44 | the total balance is any one account's balance plus the total over the rest |
| DashboardService.TotalBalanceConserved | src/main/java/com/neobankengine/service/AccountService.java:226-230 | a transfer between two of a user's accounts leaves the total balance unchanged |
| DashboardService.SumBalancesSame | src/main/java/com/neobankengine/service/DashboardService.java:42-44 | the total depends only on the balances of the accounts summed |
| DashboardService.RowsBetween | src/main/java/com/neobankengine/repository/TransactionRepository.java:20 | exactly the rows of the given accounts with a timestamp between both bounds, inclusive |
| DashboardService.MonthSummary | src/main/java/com/neobankengine/service/DashboardService.java:75-92 | the summary is labelled with the month it totals |
| DashboardService.NoAccountsNoTotals | src/main/java/com/neobankengine/service/DashboardService.java:80-81 | without accounts no query is made, so every monthly and daily total is 0 |
| DashboardService.Summaries | src/main/java/com/neobankengine/service/DashboardService.java:70-97 | one summary per month |
| DashboardService.BuildMonthlySummaries | src/main/java/com/neobankengine/service/DashboardService.java:70-97 | `max(months, 0)` summaries, the `i`-th for the month `i` months before the current one, newest first |
| DashboardService.SummaryIsMonthsBack | src/main/java/com/neobankengine/service/DashboardService.java:75-92 | the `i`-th summary names a valid month exactly `i` months back |
| DashboardService.MonthRowsDisjoint | src/main/java/com/neobankengine/service/DashboardService.java:76-80 | no row is counted in two different months' summaries |
| DashboardService.GetOverview | src/main/java/com/neobankengine/service/DashboardService.java:32-68 | unknown user: the not-found error; otherwise the total balance of the user's accounts, the row count up to now, the last-N-days totals, and the monthly list; all zero for a user without accounts |
| DashboardService.ForeignRowIgnored | src/main/java/com/neobankengine/service/DashboardService.java:51-52 | a row of another user's account changes no dashboard query |
| DashboardService.DayPoint | src/main/java/com/neobankengine/service/DashboardService.java:113-130 | the point is labelled with the day it totals |
| DashboardService.Series | src/main/java/com/neobankengine/service/DashboardService.java:103-135 | one point per day |
| DashboardService.GetDailySeries | src/main/java/com/neobankengine/service/DashboardService.java:103-135 | unknown user: the not-found error; otherwise `max(n, 0)` points, the `i`-th for the day `i` days before today |
| DashboardService.SplitWindow | src/main/java/com/neobankengine/service/DashboardService.java:115-119 | a window's totals split at any second into its two parts |
| DashboardService.TotalOfSplit | src/main/java/com/neobankengine/service/DashboardService.java:121-124 | a total splits by any second predicate |
| DashboardService.SeriesCoversSpan | src/main/java/com/neobankengine/service/DashboardService.java:113-132 | the daily credits add up to the credits of the whole span of days |
| DashboardService.SeriesCreditSnoc | src/main/java/com/neobankengine/service/DashboardService.java:113-132 | one more point adds its credit |
| AdminController.WithStatus | src/main/java/com/neobankengine/controller/AdminController.java:65-69 | only that account's status changes, to the given one |
| AdminController.WithStatusIdempotent | src/main/java/com/neobankengine/controller/AdminController.java:64-71 | setting the same status twice is setting it once |
| AdminController.UnfreezeUndoesFreeze | src/main/java/com/neobankengine/controller/AdminController.java:64-82 | unfreezing after freezing restores an ACTIVE account exactly |
| AdminController.StatusKeepsReconciled | src/main/java/com/neobankengine/controller/AdminController.java:64-82 | a status change neither makes nor breaks reconciliation |
| AdminController.SetAccountStatus | src/main/java/com/neobankengine/controller/AdminController.java:64-82 | unknown account: not found and nothing changes; otherwise only the status changes |
| AdminController.FreezeAccount | src/main/java/com/neobankengine/controller/AdminController.java:64-71 | unknown account: not found and nothing changes; otherwise the status becomes FROZEN and nothing else changes |
| AdminController.UnfreezeAccount | src/main/java/com/neobankengine/controller/AdminController.java:75-82 | unknown account: not found and nothing changes; otherwise the status becomes ACTIVE and nothing else changes |
| AdminController.FrozenAccountRefusesMutation | src/main/java/com/neobankengine/service/AccountService.java:133-135 | a FROZEN account refuses deposits, withdrawals, balance reads and transfers either way with its "not active" error |
| AdminController.UnfrozenAccountAcceptsDeposit | src/main/java/com/neobankengine/controller/AdminController.java:75-82 | after unfreezing, the owner's positive deposit passes every check |
| AdminController.WithActive | src/main/java/com/neobankengine/controller/AdminController.java:42-46 | only the user with that id gets the new flag |
| AdminController.UpdateUserStatus | src/main/java/com/neobankengine/controller/AdminController.java:39-49 | unknown user: not found and nothing changes; otherwise only that user's flag changes, with the activated or deactivated message |
| AdminController.WithActiveChangesOneUser | src/main/java/com/neobankengine/controller/AdminController.java:42-46 | users stay unique, the user is found with the new flag, and e-mail lookups find the same users |
| AdminController.WithActiveKeepsUnique | src/main/java/com/neobankengine/controller/AdminController.java:45-46 | user ids and e-mails stay unique |
| AdminController.FindAfterWithActive | src/main/java/com/neobankengine/controller/AdminController.java:42-46 | the user is found by id with the new flag |
| AdminController.FindByEmailKeepsPresence | src/main/java/com/neobankengine/controller/AdminController.java:45-46 | an e-mail lookup succeeds after the change exactly when it did before |
| NotificationService.Listed | src/main/java/com/neobankengine/service/NotificationService.java:86-93 | exactly the user's rows, only unread ones when asked |
| NotificationService.ListedConcat | src/main/java/com/neobankengine/service/NotificationService.java:86-93 | listing distributes over concatenation |
| NotificationService.CountUnread | src/main/java/com/neobankengine/service/NotificationService.java:107-110 | zero exactly when the user has no unread row |
| NotificationService.CountIsUnreadListLength | src/main/java/com/neobankengine/service/NotificationService.java:107-110 | the unread count is the length of the unread-only list |
| NotificationService.GetNotificationsForUser | src/main/java/com/neobankengine/service/NotificationService.java:82-102 | the user's list (unread only when asked), cut to the limit only when it is positive, each row mapped to its DTO |
| NotificationService.ListedRowsAreTheCallers | src/main/java/com/neobankengine/service/NotificationService.java:82-102 | every row listed belongs to the caller, and is unread when asked |
| NotificationService.ToDto | src/main/java/com/neobankengine/service/NotificationService.java:156-165 | the DTO carries the row's id, title, message, type, read flag and creation time |
| NotificationService.NewNotification | src/main/java/com/neobankengine/service/NotificationService.java:36-44 | the built row has the given id, is the addressee's and unread, and has no creation time |
| NotificationService.CreateNotification | src/main/java/com/neobankengine/service/NotificationService.java:31-55 | one unread row with the given fields and a fresh id is added; its DTO is returned |
| NotificationService.NewNotificationIsUnread | src/main/java/com/neobankengine/service/NotificationService.java:37-45 | a new notice raises its owner's unread count by one and heads the unread list |
| NotificationService.IndexOf | src/main/java/com/neobankengine/service/NotificationService.java:122-123 | a found position holds that id; none found means no row has it |
| NotificationService.MarkAsRead | src/main/java/com/neobankengine/service/NotificationService.java:121-133 | unknown id: not found; another user's row: forbidden; both change nothing; otherwise that row is read |
| NotificationService.MarkedRead | src/main/java/com/neobankengine/service/NotificationService.java:129-132 | the same rows, the marked one read with every other field kept, every other row unchanged |
| NotificationService.MarkedReadIdempotent | src/main/java/com/neobankengine/service/NotificationService.java:129-132 | marking a row read twice is marking it once |
| NotificationService.MarkedReadCount | src/main/java/com/neobankengine/service/NotificationService.java:129-132 | the unread count falls by one exactly when the row was the user's and unread |
| NotificationService.AllRead | src/main/java/com/neobankengine/service/NotificationService.java:139-151 | every row of the user is read and every other row is unchanged |
| NotificationService.UnreadPositions | src/main/java/com/neobankengine/service/NotificationService.java:140-141 | exactly the positions of the user's unread rows |
| NotificationService.MarkAllAsRead | src/main/java/com/neobankengine/service/NotificationService.java:139-151 | the loop marks all of the user's rows read and touches nothing else |
| NotificationService.AllReadKeepsIds | src/main/java/com/neobankengine/service/NotificationService.java:147-150 | marking rows read keeps the ids valid |
| NotificationService.AllReadClearsUnread | src/main/java/com/neobankengine/service/NotificationService.java:139-151 | afterwards the user's unread count is 0 and the unread list is empty |
| NotificationService.AllReadKeepsOthers | src/main/java/com/neobankengine/service/NotificationService.java:139-151 | other users' lists and counts are unchanged |
| NotificationService.AllReadNoUnreadIsNoop | src/main/java/com/neobankengine/service/NotificationService.java:143-145 | with nothing unread the inbox stays as it was |
| AccountController.ParseFormat | src/main/java/com/neobankengine/controller/AccountController.java:164-166 | csv and json in any case are accepted; any other format is a bad request |
| AccountController.CountConcat | src/main/java/com/neobankengine/controller/AccountController.java:195-214 | character counts add over concatenation |
| AccountController.CountAbsent | src/main/java/com/neobankengine/controller/AccountController.java:195-214 | a character that never appears has count 0 |
| AccountController.EscapeQuotes | src/main/java/com/neobankengine/controller/AccountController.java:199-201 | the escaped text is longer by exactly the number of quotes |
| AccountController.EscapeCounts | src/main/java/com/neobankengine/controller/AccountController.java:199-201 | escaping doubles the quotes and keeps every other character |
| AccountController.ReadDoubledQuote | src/main/java/com/neobankengine/controller/AccountController.java:199-201 | a doubled quote reads back as one quote |
| AccountController.ReadPlain | src/main/java/com/neobankengine/controller/AccountController.java:199-201 | any other character reads back as itself |
| AccountController.QuotedFieldRoundTrip | src/main/java/com/neobankengine/controller/AccountController.java:199-206 | an escaped reference in quotes reads back as the original reference, with the rest of the line left over |
| AccountController.CsvRow | src/main/java/com/neobankengine/controller/AccountController.java:206-213 | a line ends with a line break |
| AccountController.Rows | src/main/java/com/neobankengine/controller/AccountController.java:198-214 | at least one character per entry, ending with a line break when there is an entry |
| AccountController.WriteCsv | src/main/java/com/neobankengine/controller/AccountController.java:194-214 | the header line followed by one line per entry in order |
| AccountController.RowsSnoc | src/main/java/com/neobankengine/controller/AccountController.java:198-214 | one more entry appends its line |
| AccountController.RowsConcat | src/main/java/com/neobankengine/controller/AccountController.java:198-214 | the lines of two lists are the two texts joined |
| AccountController.RowOfEachEntry | src/main/java/com/neobankengine/controller/AccountController.java:198-214 | the `i`-th entry's line sits between the lines before and after it |
| AccountController.JoinFieldsNoNewline | src/main/java/com/neobankengine/controller/AccountController.java:206 | comma-joined fields without line breaks have none |
| AccountController.RowHasOneNewline | src/main/java/com/neobankengine/controller/AccountController.java:206-213 | an entry whose texts hold no line break yields exactly one line |
| AccountController.OneLinePerEntry | src/main/java/com/neobankengine/controller/AccountController.java:198-214 | the body after the header holds exactly one line per entry |
| AccountController.DownloadStatement | src/main/java/com/neobankengine/controller/AccountController.java:145-226 | a bad format is a bad request; otherwise the statement's own success and errors, over the window as written; JSON carries the rows, CSV the header and one line per row |
| Text.EqualsIgnoreCase | src/main/java/com/neobankengine/controller/AccountController.java:164 | reflexive; equal-ignoring-case texts have equal lengths |
| Text.IsBlank | src/main/java/com/neobankengine/service/AccountService.java:137 | blank exactly when every character is whitespace |
| Text.UnicodeBlanks | src/main/java/com/neobankengine/service/AccountService.java:137 | Unicode space and line separators count as blank, non-breaking spaces do not, as for `Character.isWhitespace` |
| Text.NatToString | src/main/java/com/neobankengine/controller/AccountController.java:206-208 | a non-empty string of decimal digits, with a leading zero only for 0 and one digit exactly below 10 |
| Text.NatToStringRoundTrip | src/main/java/com/neobankengine/controller/AccountController.java:206-208 | reading the digits back gives the number |
| Text.NatToStringInjective | src/main/java/com/neobankengine/controller/AccountController.java:206-208 | distinct numbers render differently |
| Text.FormatCents | src/main/java/com/neobankengine/controller/AccountController.java:206 | a sign exactly for a negative amount, then digits, a point and two final digits |
| Text.FormatCentsRoundTrip | src/main/java/com/neobankengine/controller/AccountController.java:206 | reading the rendering back gives the amount in minor units |

## Left out

- Floating point: amounts and balances are `Double` in the source and integers in minor
  units here. Rounding in sums and in `%.2f` is not modelled.
- Text.FormatCents: renders an amount of minor units exactly with two decimals. It does not
  model locale-dependent separators or the rounding of `%.2f` on a `double`.
- Sending e-mail (`sendEmailIfConfigured`): it is best-effort and its failures are swallowed,
  so it cannot change an outcome. It is left out.
- The clock: `LocalDateTime.now()`, `LocalDate.now()` and `YearMonth.now()` are parameters
  (`now`, `today`, `current`).
- The text form of a timestamp in a CSV line (`LocalDateTime.toString`) is the parameter `fmt`.
- AccountController.WriteCsv: `%n` is modelled as `"\n"`, the separator on the Unix hosts the
  service runs on. On Windows `%n` is CRLF; that platform dependence is not modelled.
- JSON serialisation of the statement and PDF layout: they are modelled as the rows they
  carry (`JsonFile`) and as the summary figures (`PdfService.StatementSummary`). Fonts, the
  logo, watermark, QR code and the table layout are out.
- Text.EqualsIgnoreCase: folds ASCII letters only. Java's full Unicode case folding is not
  modelled.
- A null account balance (`getBalance() == null ? 0.0 : …`): the engine never stores one, so
  `Account.balance` is not optional.
- Ledger.SortNewestFirst: rows with a null timestamp are placed last. This is a choice: the
  engine never writes a null timestamp, and PostgreSQL would put them first for a
  descending order.
- Database order between rows with equal timestamps is unspecified. Ledger.SortNewestFirst
  fixes one order (stable insertion), and only the order by timestamp is claimed.
- Timestamps are whole seconds. `LocalTime.MAX` (23:59:59.999999999) is modelled as the
  day's last second.
- AccountService.ApplyTransfer: both entries carry the one timestamp `now`. The source reads
  the clock once per entry, so its two timestamps can differ by the time between the saves.
- Null strings: caller e-mails and notification owners are never null here. So `withdraw`
  has only its blank-e-mail branch (the `userEmail == null` test, AccountService.java:137),
  and `markAsRead` cannot hit the null owner that would fail there with a server error
  (NotificationService.java:125).
- Concurrency and transaction isolation (`@Transactional`): every operation is atomic here.
- Authentication, JWT, registration and login (`UserService`, `AuthController`, security
  configuration): not part of this model.
- `NotificationService.getNotifications` and `getUnreadCount` are left out. They are thin
  wrappers over the listing and the count, which are modelled.
- The HTTP layer beyond the statement download is left out: controllers that only forward
  to a service, date-string parsing and response headers.
- Notification `createdAt` stays null when the service builds a notification, so the
  repository's created-at order is modelled as store order, newest first.
- AccountService.CreateAccount: the opening balance is taken as given. The model does not
  reject a negative deposit, because the source does not either.

## Findings

| source | as written | input that shows it | evidently intended | confidence | as-written member | corrected member |
|---|---|---|---|---|---|---|
| src/main/java/com/neobankengine/service/TransactionService.java:136-137 | a statement with only a `from` day uses `TimestampAfter(from 00:00)`, which is strict, so a row stamped exactly at midnight of `from` is left off the statement; the opening balance still subtracts it because `getBalanceBefore` counts rows `>=` the cutoff | one CREDIT of 100 at 00:00:00 of day `d` on an account of balance 100, statement from `d`: opening 0, no rows, closing 0 instead of 100 | the `from` bound inclusive, as the two-day `Between` query and the opening-balance cutoff treat it | not executed | PdfService.MidnightCreditMissingFromClosing | PdfService.ClosingIsCurrentBalance |
| src/main/java/com/neobankengine/controller/AccountController.java:251 | the PDF endpoint passes a null `from` on to `getBalanceBefore`, which deliberately returns the current balance for no date (its comment at AccountService.java:263 says so, and the branch at lines 264-268 does it); the statement rows are the whole history, so the closing balance (opening plus credits minus debits) counts the history twice | one CREDIT of 100 on an account of balance 100, statement with no days: opening 100, credits 100, closing 200 instead of 100 | for the no-date statement the endpoint opens at the balance before every entry (0 for an account whose balance is its ledger), so the closing is the current balance | not executed | PdfService.UnboundedClosingCountsHistoryTwice | PdfService.ClosingIsCurrentBalance |
