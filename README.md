# Personal finance ledger — a verified model

This project models the core of a personal-finance application: a Django
backend that keeps account balances, transactions, recurring templates, bets,
debts, budgets, goals, investments and categories, plus the frontend's
notification store, e-mail rate limiter and peso formatting.

The centre of the model is the **ledger engine** (`Ledger`). A `Transaction`
row applies its balance effect when it is created. When it is edited, the
stored row's effect is reversed and the new one applied. When it is deleted,
its effect is reversed. The ledger is a class whose methods update a balance
map and a row table. It keeps one invariant: every balance equals its opening
balance plus the net effect of the live rows. A transfer's source and destination
are two separately loaded account instances, so the destination is written from
the balance read before the debit; a transfer to its own account therefore
credits it.

The other backend modules are:

- **Bets**: a bet generates one transaction through the ledger.
- **Debts**: payments update a running paid amount.
- **Recurring**: a scheduler posts one occurrence per due template.
- **Validation rules**: `TransactionRules`, `BetRules`, `GoalRules`, `Categories`.
- **Read-side aggregation**: `TransactionViews`, `BetStats`, `DebtViews`,
  `Budgets`, `BudgetViews`, `Goals`, `Investments`, `Accounts`, `Dashboard`,
  `Reports`.
- **Orphans**: the orphan-category repair command.

On the frontend side, `Notifications` models the alert store with its read and
dismiss maps. `Email` models the per-subject e-mail throttle and the stored
preferences. `Currency` models the peso and date formatting.

Shared modules:

- `Common`: identifiers, `Option`, `Validated`.
- `Dates`: calendar dates with Python's `toordinal`, `weekday`, `timedelta`
  and `relativedelta`.
- `Text`: decimal rendering.
- `Aggregate`: filter, sum, count, group-by and stable sort over sequences.

Modelling choices:

- Money is held in integer cents (the columns are `Decimal(15, 2)`).
- Percentages are exact reals.
- A queryset is a filter over an in-memory sequence.
- Browser storage is a map.
- The current date or time, the e-mail provider's answer and a debt's days to
  its due date are parameters.

Notes on the code as shipped:

- There is no `adjustment` transaction kind. A type outside the three kinds is
  kept as `Unlisted` and moves no balance.
- No validator checks that an amount is positive.
- `PurchaseItem` and `Transaction.related_bet` are not declared in the
  transactions model file as shipped. They are taken from the migrations.
- `Bet._apply_bet` and `_reverse_bet` are never called. Their effect is still
  modelled and related to the generated transaction.
- There is no habits or trend view.

## Model

| member | source | states |
|---|---|---|
| Ledger.Apply | backend/apps/transactions/models.py:76-88 | `_apply_transaction` as balance writes; the account set is unchanged |
| Ledger.Reverse | backend/apps/transactions/models.py:90-102 | `_reverse_transaction` as balance writes; the account set is unchanged |
| Ledger.Touched | backend/apps/transactions/models.py:76-88 | the accounts an entry writes are among the accounts it refers to |
| Ledger.ApplyEffect | backend/apps/transactions/models.py:76-88 | applying adds the effect table's amount to every account and leaves every untouched account as it was |
| Ledger.ReverseEffect | backend/apps/transactions/models.py:90-102 | reversing subtracts the effect table's amount and leaves untouched accounts alone |
| Ledger.ReverseUndoesApply | backend/apps/transactions/models.py:72-74 | reverse undoes apply for every kind, in both orders, so create-then-delete restores every balance |
| Ledger.IncomeAdds | backend/apps/transactions/models.py:77-79 | an income adds its amount to its account and changes nothing else |
| Ledger.ExpenseSubtracts | backend/apps/transactions/models.py:80-82 | an expense subtracts its amount from its account and changes nothing else |
| Ledger.TransferConserves | backend/apps/transactions/models.py:83-88 | a transfer to another account debits the source, credits the destination, and keeps their sum |
| Ledger.SelfTransferCredits | backend/apps/transactions/models.py:83-88 | a transfer whose destination is its own account is credited with the amount when applied and debited when reversed: the destination instance, loaded before the debit was saved, is written last |
| Ledger.TransferWithoutDestination | backend/apps/transactions/models.py:83-86 | a transfer without a destination only debits its source |
| Ledger.UnlistedKindInert | backend/apps/transactions/models.py:76-102 | a type outside the `elif` chain changes no balance, applied or reversed |
| Ledger.ApplyCommutes | backend/apps/transactions/models.py:76-88 | two entries' effects commute, so balances do not depend on creation order |
| Ledger.EditEffect | backend/apps/transactions/models.py:61-70 | an edit moves every balance by the new effect minus the old one |
| Ledger.ApplyAll | backend/apps/transactions/models.py:66-67 | applying a sequence of new rows keeps the account set |
| Ledger.ApplyAllSnoc | backend/apps/transactions/models.py:66-67 | applying one more row is one more `_apply_transaction` |
| Ledger.ApplyAllEffect | backend/apps/transactions/models.py:66-67 | applying a sequence of rows adds the sum of their effects to every account |
| Ledger.IndexOf | backend/apps/transactions/models.py:61-62 | the position of the row with a primary key, or -1 when there is none |
| Ledger.NetAppend | backend/apps/transactions/models.py:66-67 | a new row adds its effect to the table's net effect |
| Ledger.NetReplace | backend/apps/transactions/models.py:68-70 | replacing a row changes the net effect by new minus old |
| Ledger.NetRemove | backend/apps/transactions/models.py:72-74 | removing a row takes its effect out of the net effect |
| Ledger.NetWithoutBetRows | backend/apps/bets/models.py:186-188 | removing a bet's rows takes exactly their effect out of the net effect |
| Ledger.Ledger.Entries | backend/apps/transactions/models.py:57-74 | the entries of the table, row by row |
| Ledger.Ledger.constructor | backend/apps/transactions/models.py:57-74 | an empty table over the given balances, consistent |
| Ledger.Ledger.ApplyTransaction | backend/apps/transactions/models.py:76-88 | the balances become `Apply` of the old ones |
| Ledger.Ledger.ReverseTransaction | backend/apps/transactions/models.py:90-102 | the balances become `Reverse` of the old ones |
| Ledger.Ledger.Create | backend/apps/transactions/models.py:57-67 | a new row is appended with a fresh id, its effect applied, consistency kept |
| Ledger.Ledger.Update | backend/apps/transactions/models.py:57-70 | the row is replaced, the stored row's effect reversed and the new one applied, consistency kept |
| Ledger.Ledger.Delete | backend/apps/transactions/models.py:72-74 | the row's effect is reversed and the row removed, consistency kept |
| Ledger.Ledger.RemoveBetRows | backend/apps/bets/models.py:181 | the bulk delete removes the bet's rows and moves no balance |
| Ledger.Ledger.SetInitialBalance | backend/apps/accounts/views.py:21-28 | a validated value overwrites one balance, an invalid request changes nothing, rows untouched |
| Ledger.RemoveKeepsRows | backend/apps/transactions/models.py:72-74 | deleting a row keeps every other row and their distinct ids |
| Ledger.NoBetRowsLeft | backend/apps/bets/models.py:186-188 | after the bulk delete the bet owns no row |
| Ledger.StaleEdit | backend/apps/transactions/models.py:61-70 | an edit as written when the viewset pre-loads the accounts; the account set is unchanged |
| Ledger.StaleEditLosesReversal | backend/apps/transactions/models.py:61-70 | the edit as written differs from reverse-then-apply by the old effect on every account the new row writes |
| Ledger.StaleEditExample | backend/apps/transactions/views.py:33-36 | editing an income of 100000 down to 60000 writes 160000 instead of 60000 |
| TransactionRules.Validate | backend/apps/transactions/serializers.py:26-52 | accepted iff neither the transfer rule nor the category rule fires; the error field names the first failing rule; accepted attributes come back unchanged |
| TransactionRules.CategoryCheckSkipped | backend/apps/transactions/serializers.py:42 | transfers and category-less entries skip the category check |
| TransactionRules.NewEntry | backend/apps/transactions/serializers.py:54-56 | the created row carries the submitted kind, amount, date, account, destination, category id and the recurring and ant-expense flags, is owned by the requesting user and is linked to no bet |
| TransactionRules.AcceptedTransferConserves | backend/apps/transactions/serializers.py:32-41 | an accepted transfer has a distinct destination and keeps the sum of the two balances |
| TransactionViews.Window | backend/apps/transactions/views.py:45-48 | `date_from` and `date_to` are inclusive bounds that apply only when given |
| TransactionViews.TransactionSummary | backend/apps/transactions/views.py:50-61 | income and expense totals of the window, with empty sums 0, and balance = income − expenses |
| TransactionViews.KindTotalsSigned | backend/apps/transactions/views.py:50-61 | income minus expenses is the signed sum of the entries |
| TransactionViews.SummaryBalanceSigned | backend/apps/transactions/views.py:58-61 | the summary balance is the signed sum over the window |
| TransactionViews.SummaryIgnoresTransfers | backend/apps/transactions/views.py:50-56 | recording a transfer leaves the summary unchanged |
| TransactionViews.ByCategory | backend/apps/transactions/views.py:66-78 | one row per category of the window's expenses, with its total, largest first, and every category present |
| TransactionViews.Expenses | backend/apps/transactions/views.py:66 | exactly the `gasto` entries |
| TransactionViews.AntWindows | backend/apps/transactions/views.py:91-94 | the current window runs from the first of this month to today; the previous one is the whole calendar month before and ends the day before |
| TransactionViews.AntIn | backend/apps/transactions/views.py:96-108 | the user's ant expenses between two inclusive dates |
| TransactionViews.LatestFive | backend/apps/transactions/views.py:114 | the five latest entries by date: as many as there are up to five, drawn from the candidates, latest first, and none left out is later than one listed |
| TransactionViews.AntExpenses | backend/apps/transactions/views.py:110-121 | current total and count, previous total, and this month's five latest ant expenses (all when fewer): none left out is later than one listed |
| TransactionViews.Toggled | backend/apps/transactions/views.py:137-141 | `is_active` flips and nothing else changes |
| TransactionViews.ToggleTwice | backend/apps/transactions/views.py:139 | toggling twice restores the template |
| TransactionViews.ToggleActive | backend/apps/transactions/views.py:137-141 | the row at the index is toggled, every other row unchanged |
| TransactionViews.UpcomingCandidates | backend/apps/transactions/views.py:145-147 | the user's active templates with next run on or after today |
| TransactionViews.Upcoming | backend/apps/transactions/views.py:145-148 | at most 10 candidates, in ascending next-run order |
| TransactionViews.UpcomingIsEarliest | backend/apps/transactions/views.py:148 | every candidate left out runs no earlier than every listed one |
| Recurring.NewTemplate | backend/apps/transactions/serializers.py:96-100 | without `next_execution` the template first runs on its start date; it belongs to the requesting user |
| Recurring.NextDateAsWritten | backend/apps/transactions/management/commands/process_recurring.py:48-65 | `calculate_next_date` as written fails exactly on a yearly 29 February |
| Recurring.NextMonthClamped | backend/apps/transactions/management/commands/process_recurring.py:55-62 | the next month, December rolling to January, with the day capped at 28 |
| Recurring.LeapDayYearlyFails | backend/apps/transactions/management/commands/process_recurring.py:63-64 | a yearly template dated 2024-02-29 makes `replace` raise |
| Recurring.NextDate | backend/apps/transactions/management/commands/process_recurring.py:48-65 | agrees with the code wherever the code yields a date |
| Recurring.FixedStepOrdinal | backend/apps/transactions/management/commands/process_recurring.py:49-54 | daily, weekly and fortnightly add 1, 7 and 15 days |
| Recurring.YearlyStep | backend/apps/transactions/management/commands/process_recurring.py:63-64 | yearly keeps month and day one year on; 29 February becomes the 28th in a common year |
| Recurring.NextDateAdvances | backend/apps/transactions/management/commands/process_recurring.py:48-65 | each listed frequency moves strictly forward; an unknown one returns the date unchanged |
| Recurring.Occurrence | backend/apps/transactions/management/commands/process_recurring.py:26-36 | the created transaction is dated at the next execution, flagged recurring, and copies the template's fields |
| Recurring.StepProgress | backend/apps/transactions/management/commands/process_recurring.py:20-40 | a template that fires records its run and moves forward; an expired one is deactivated and never due again; one not due is untouched |
| Recurring.Generated | backend/apps/transactions/management/commands/process_recurring.py:20-42 | at most one occurrence per template |
| Recurring.GeneratedCount | backend/apps/transactions/management/commands/process_recurring.py:21-42 | the occurrences are exactly the firing templates': active, due, not expired (an end date of today still fires) |
| Recurring.GeneratedSnoc | backend/apps/transactions/management/commands/process_recurring.py:20-42 | one more template adds its occurrence if it fires |
| Recurring.GeneratedRefs | backend/apps/transactions/management/commands/process_recurring.py:26-36 | occurrences refer only to known accounts |
| Recurring.RunTemplate | backend/apps/transactions/management/commands/process_recurring.py:21-40 | one loop pass: the template is stepped and its occurrence, if it fires, posted through the ledger |
| Recurring.StepsDoneNext | backend/apps/transactions/management/commands/process_recurring.py:20 | the loop invariant advances by one template |
| Recurring.GeneratedFrom | backend/apps/transactions/management/commands/process_recurring.py:20-36 | every occurrence is the occurrence of a firing template |
| Recurring.GeneratedNotAfter | backend/apps/transactions/management/commands/process_recurring.py:13-31 | occurrences of templates that run no later than a given template are dated no later than its run |
| Recurring.DatedInOrderSnoc | backend/apps/transactions/management/commands/process_recurring.py:20-36 | appending an occurrence dated no earlier than every earlier one keeps the occurrences in date order |
| Recurring.GeneratedInDateOrder | backend/apps/transactions/management/commands/process_recurring.py:13-36 | templates taken in `next_execution` order create their occurrences in date order |
| Recurring.ProcessRecurring | backend/apps/transactions/management/commands/process_recurring.py:10-42 | the templates, given in the queryset's `next_execution` order, are each stepped; the occurrences are appended and applied in that order and come out in date order; `processed` counts them; consistency kept |
| Recurring.StaleRun | backend/apps/transactions/management/commands/process_recurring.py:13-36 | the balances as written when each template carries a pre-loaded account copy; the account set is unchanged |
| Recurring.StaleRunLastWins | backend/apps/transactions/management/commands/process_recurring.py:13-16 | an account touched by the last occurrence keeps only that occurrence's effect |
| Recurring.StaleRunExample | backend/apps/transactions/management/commands/process_recurring.py:13-36 | two due incomes of 100 on one account leave it at 100 instead of 200 |
| Bets.NetResult | backend/apps/bets/models.py:79-84 | payout − stake if won, −stake if lost, 0 if pending |
| Bets.GeneratedEntry | backend/apps/bets/models.py:134-175 | a won bet books an income of payout − stake, any other bet an expense of its stake, on its account and date, linked to the bet |
| Bets.ApplyBet | backend/apps/bets/models.py:114-122 | `_apply_bet` as balance writes |
| Bets.ReverseBet | backend/apps/bets/models.py:124-132 | `_reverse_bet` as balance writes |
| Bets.ReverseBetUndoesApplyBet | backend/apps/bets/models.py:114-132 | `_reverse_bet` undoes `_apply_bet` for every result, in both orders |
| Bets.GeneratedEntryIsApplyBet | backend/apps/bets/models.py:102-104 | the generated transaction moves the account exactly as `_apply_bet` would |
| Bets.BetIndex | backend/apps/bets/models.py:188 | the first row linked to the bet, or -1 when there is none |
| Bets.RemoveBetRowAt | backend/apps/bets/models.py:186-188 | deleting one linked row shrinks the bet's rows by it and keeps the others |
| Bets.DeleteBetRows | backend/apps/bets/models.py:109-112 | deleting the linked rows one by one removes them and reverses their effect |
| Bets.BetRowsAppend | backend/apps/bets/models.py:141-175 | a new row joins the bet's rows exactly when it is linked to the bet |
| Bets.CreateBet | backend/apps/bets/models.py:100-104 | a new bet owns exactly its generated transaction, and the balances move as `_apply_bet` |
| Bets.UpdateBetAsWritten | backend/apps/bets/models.py:105-184 | as written: the old rows vanish but the balances only gain the new transaction |
| Bets.DeleteBetAsWritten | backend/apps/bets/models.py:109-188 | as written: the rows vanish and no balance moves |
| Bets.BulkDeleteDrift | backend/apps/bets/models.py:181-188 | after the bulk delete each balance still carries the removed rows' effect |
| Bets.BulkDeleteExample | backend/apps/bets/models.py:186-188 | run on a ledger through `DeleteBetAsWritten`: deleting a lost bet of 5000 removes its row but leaves the account at 95000 instead of 100000, so the balances no longer match the rows |
| Bets.UpdateBet | backend/apps/bets/models.py:105-184 | corrected: the old rows are reversed and removed, exactly one regenerated row is applied, consistency kept |
| Bets.DeleteBet | backend/apps/bets/models.py:109-112 | corrected: every linked row is removed and its effect reversed, consistency kept |
| Bets.UpdateIsReverseThenApply | backend/apps/bets/models.py:114-184 | the corrected update equals `_reverse_bet` of the old bet then `_apply_bet` of the new one |
| BetRules.ValidateBet | backend/apps/bets/serializers.py:23-43 | payout error iff the result being won disagrees with a positive payout; stake error iff a present stake is negative; missing fields come from the instance or the create defaults; accepted attributes unchanged |
| BetRules.ZeroStakeAccepted | backend/apps/bets/serializers.py:37-41 | a zero stake passes because it is falsy |
| BetRules.CreateDefaults | backend/apps/bets/serializers.py:24-25 | on create the result defaults to pending and the payout to 0 |
| BetRules.AcceptedBetEntry | backend/apps/bets/serializers.py:23-43 | an accepted bet's generated transaction books its stake, or its profit over a positive payout |
| BetStats.WithResult | backend/apps/bets/views.py:37-39 | exactly the bets of one result |
| BetStats.MaxBy | backend/apps/bets/views.py:67-73 | a bet of maximal rank, or none for an empty set |
| BetStats.Roi | backend/apps/bets/views.py:50-52 | 0 when nothing was staked; otherwise positive iff won exceeds staked |
| BetStats.WinRate | backend/apps/bets/views.py:59-61 | between 0 and 100, and 0 when no bet is resolved |
| BetStats.BetStatistics | backend/apps/bets/views.py:30-73 | totals, counts, net = won payouts − all stakes, roi, win rate, best won bet by profit, worst lost bet by smallest stake |
| BetStats.CountsPartition | backend/apps/bets/views.py:54-57 | won, lost and pending counts add up to the total |
| BetStats.NetIsLedgerEffect | backend/apps/bets/views.py:48 | `net_result` equals what the generated transactions moved |
| BetStats.GroupOf | backend/apps/bets/views.py:75-85 | one group row: stake sum, won-payout sum (null without wins), count |
| BetStats.RowsFor | backend/apps/bets/views.py:75-79 | the group rows for the listed keys, in order |
| BetStats.ByType | backend/apps/bets/views.py:75-79 | one row per bet type |
| BetStats.ByTypeOrdered | backend/apps/bets/views.py:75-79 | rows ordered by total stake, largest first, and every bet type present |
| BetStats.ResultRowOf | backend/apps/bets/views.py:81-85 | one `by_result` row over every bet of that result |
| BetStats.ResultRows | backend/apps/bets/views.py:81-85 | the result rows for the listed results, in order |
| BetStats.ByResult | backend/apps/bets/views.py:81-85 | one row per result, no result twice |
| BetStats.ByResultCovers | backend/apps/bets/views.py:81-85 | every result that occurs has a non-empty row |
| Debts.Remaining | backend/apps/debts/models.py:48-50 | remaining + paid = total; non-positive iff paid reaches total |
| Debts.Progress | backend/apps/debts/models.py:52-56 | 0 for a non-positive total; reaches 100 iff paid reaches total; within 0..100 when 0 ≤ paid ≤ total |
| Debts.AfterAdd | backend/apps/debts/models.py:75-79 | a new payment adds its amount; the flag is set once the total is reached and never cleared |
| Debts.AfterDelete | backend/apps/debts/models.py:81-85 | a deleted payment subtracts its amount; the flag is cleared below the total and never set |
| Debts.AddThenDelete | backend/apps/debts/models.py:76-82 | add-then-delete restores the paid amount, and the whole row when the flag agrees with the amounts |
| Debts.AddThenDeleteKeepsFlag | backend/apps/debts/models.py:77-85 | without that agreement the flag can survive the round trip |
| Debts.SettledPreserved | backend/apps/debts/models.py:75-85 | non-negative payments keep the flag in agreement with the amounts |
| Debts.Debt.Record | backend/apps/debts/models.py:48-56 | the fields the read side sees |
| Debts.Debt.constructor | backend/apps/debts/models.py:6-38 | a new debt has nothing paid and no payments |
| Debts.Debt.AddPayment | backend/apps/debts/models.py:71-79 | a new payment is stored and the debt becomes `AfterAdd`; the running sum stays tracked |
| Debts.Debt.ResavePayment | backend/apps/debts/models.py:72-75 | re-saving an existing payment leaves the debt unchanged |
| Debts.Debt.DeletePayment | backend/apps/debts/models.py:81-86 | the debt becomes `AfterDelete` and the row is removed |
| Debts.SumWithout | backend/apps/debts/models.py:81-86 | removing a payment takes its amount out of the sum |
| Debts.SumReplace | backend/apps/debts/models.py:72-75 | replacing a payment changes the sum by the difference |
| DebtViews.Open | backend/apps/debts/views.py:27-37 | exactly the unpaid debts of one type |
| DebtViews.TypeTotals | backend/apps/debts/views.py:29-49 | total and paid sums over the group, remaining = total − paid, all 0 when empty |
| DebtViews.Summary | backend/apps/debts/views.py:25-50 | debts and loans are summed apart |
| DebtViews.RemainingIsSumOfRemaining | backend/apps/debts/views.py:40-49 | a group's remaining is the sum of its debts' remaining amounts |
| DebtViews.OtherDebtsIgnored | backend/apps/debts/views.py:27 | a paid debt, or one of the other type, does not move a group |
| DebtViews.OpenDebtCounted | backend/apps/debts/views.py:29-37 | an unpaid debt adds its total and paid amount to its group |
| DebtViews.AddPaymentAction | backend/apps/debts/views.py:52-60 | an invalid payment is refused and leaves the debt as it was; a valid one is `AfterAdd` |
| Budgets.PeriodDates | backend/apps/budgets/serializers.py:30-46 | the window contains today: Monday to Sunday, the calendar month, or otherwise the calendar year |
| Budgets.WeekStart | backend/apps/budgets/serializers.py:33-35 | going back by the weekday lands on a Monday, and Sunday is not before today |
| Budgets.WeekArithmetic | backend/apps/budgets/serializers.py:33-35 | the weekday offset arithmetic behind `WeekStart` |
| Budgets.Spent | backend/apps/budgets/serializers.py:48-57 | the owner's expenses in the category within the window, 0 for none |
| Budgets.Percentage | backend/apps/budgets/serializers.py:59-63 | 0 for a non-positive limit; otherwise at least 100 iff spent reaches the limit |
| Budgets.Serialize | backend/apps/budgets/serializers.py:48-74 | remaining = limit − spent; exceeded iff percentage ≥ 100; warning iff threshold ≤ percentage < 100; never both |
| Budgets.NoLimitNoExceed | backend/apps/budgets/serializers.py:59-74 | a non-positive limit is never exceeded |
| Budgets.SpentIgnores | backend/apps/budgets/serializers.py:50-56 | entries outside the filter do not count |
| Budgets.SpentCounts | backend/apps/budgets/serializers.py:50-56 | a matching expense adds its amount |
| Budgets.ValidateCategory | backend/apps/budgets/serializers.py:80-83 | accepted iff the category is an expense category |
| BudgetViews.AlertOf | backend/apps/budgets/views.py:28-36 | the alert copies id, percentage, spent, limit and the exceeded flag |
| BudgetViews.ActiveData | backend/apps/budgets/views.py:22-25 | exactly the user's active budgets, serialized, newest first (`ordering = ['-created_at']` at backend/apps/budgets/models.py:26): the last created active budget leads |
| BudgetViews.NewestListedFirst | backend/apps/budgets/models.py:21-26 | a budget created after the others is listed ahead of them, and the others keep their order |
| BudgetViews.AlertsFor | backend/apps/budgets/views.py:26-36 | one alert per budget that is exceeded or in warning |
| BudgetViews.Alerts | backend/apps/budgets/views.py:20-38 | the loop builds exactly the alerts of the active budgets that are exceeded or in warning |
| BudgetViews.ExceededAlerts | backend/apps/budgets/views.py:26-33 | an active exceeded budget always raises an alert flagged exceeded |
| BudgetViews.Toggled | backend/apps/budgets/views.py:42-44 | `is_active` flips and nothing else changes |
| BudgetViews.ToggleActive | backend/apps/budgets/views.py:40-45 | the row at the index is toggled, every other row unchanged |
| Goals.WindowEnd | backend/apps/goals/models.py:73-74 | the earlier of today and the target date |
| Goals.CurrentAmount | backend/apps/goals/models.py:66-108 | savings: income − expenses in the window; reduction with category and baseline: baseline − the category's expenses; otherwise 0 |
| Goals.Cap | backend/apps/goals/models.py:121-124 | `min(100, x)` |
| Goals.ProgressAsWritten | backend/apps/goals/models.py:110-124 | as written: 0 for a non-positive target, at most 100, and a reduction goal measured by baseline − current |
| Goals.ReductionProgressInverted | backend/apps/goals/models.py:116-121 | spending nothing shows 0 progress and spending the whole baseline shows 100 |
| Goals.ProgressAsWrittenRewardsSpending | backend/apps/goals/models.py:116-121 | as written, more spending never lowers a reduction goal's progress |
| Goals.Progress | backend/apps/goals/models.py:110-124 | corrected: 0 for a non-positive target, at most 100, a reduction goal measured by what is left of the baseline |
| Goals.ProgressPenalisesSpending | backend/apps/goals/models.py:116-121 | corrected: more spending never raises progress, and nothing spent completes a reachable goal |
| Goals.SavingsProgressUnchanged | backend/apps/goals/models.py:123-124 | both readings agree for savings goals |
| Goals.ScaleMonotone | backend/apps/goals/models.py:121-124 | the percentage scaling is monotone |
| Goals.ScaledReaches | backend/apps/goals/models.py:121-128 | the capped percentage reaches 100 exactly when the amount reaches the target |
| Goals.SavingsCompletion | backend/apps/goals/models.py:126-128 | a savings goal is complete iff the net savings reach the target, in the code's reading and the corrected one |
| Goals.ReductionCompletion | backend/apps/goals/models.py:110-128 | as written, a reduction goal is complete once the category's spending reaches the target reduction; corrected, once what is left of the baseline reaches it |
| Goals.DaysRemaining | backend/apps/goals/models.py:130-134 | never negative; 0 iff the target date is not after today; otherwise today + n is the target date |
| GoalRules.ValidateGoal | backend/apps/goals/serializers.py:25-46 | category error iff a reduction goal lacks a category or a savings goal has one; reduction error iff neither percentage nor baseline is given; accepted attributes unchanged; no other rejection |
| GoalRules.BaselineFor | backend/apps/goals/serializers.py:59-68 | the user's expenses in the category over the three months up to the end date |
| GoalRules.CreateBaseline | backend/apps/goals/serializers.py:48-72 | a missing baseline on a reduction goal with a category is computed; a given one is kept |
| GoalRules.BaselineNonNegative | backend/apps/goals/serializers.py:62-68 | non-negative expenses give a non-negative baseline |
| GoalRules.BaselineWindow | backend/apps/goals/serializers.py:59-60 | the window start is not after its end |
| Investments.ProfitLoss | backend/apps/investments/models.py:51-53 | profit + initial = current |
| Investments.ReturnPercentage | backend/apps/investments/models.py:55-59 | 0 when initial ≤ 0; otherwise the sign of current − initial, and 0 iff equal |
| Investments.ProfitLossPercentage | backend/apps/investments/models.py:55-59 | 0 when initial ≤ 0; otherwise the sign of `profit_loss` |
| Investments.ActiveOf | backend/apps/investments/views.py:23 | exactly the user's active investments |
| Investments.Summary | backend/apps/investments/views.py:21-44 | totals over the active investments only, profit = current − invested, percentage 0 when invested ≤ 0, per-type values largest first with every active type listed, count |
| Investments.SummaryProfitIsSum | backend/apps/investments/views.py:25-27 | the summary's profit is the sum of the holdings' own |
| Investments.InactiveIgnored | backend/apps/investments/views.py:23 | an inactive investment, or another user's, does not change the summary |
| Investments.UpdateValue | backend/apps/investments/views.py:46-56 | a given value replaces `current_amount` and nothing else; a missing one is refused and changes nothing |
| Accounts.Included | backend/apps/accounts/views.py:32 | exactly the user's active accounts included in the total |
| Accounts.TotalBalance | backend/apps/accounts/views.py:31-37 | the total sums the filtered set and the count counts the same set |
| Accounts.IncludedDistinct | backend/apps/accounts/views.py:32 | the filter keeps ids distinct |
| Accounts.UncountedIrrelevant | backend/apps/accounts/views.py:32-33 | a change on an account that is not counted does not move the total |
| Accounts.SumIndicator | backend/apps/accounts/views.py:33 | a single account's amount, summed over distinct accounts |
| Accounts.TotalAfterApply | backend/apps/accounts/views.py:33 | a transaction moves the total by its effect on the counted accounts |
| Accounts.TransferKeepsTotal | backend/apps/accounts/views.py:33 | a transfer between two counted accounts keeps the total |
| Accounts.IncomeMovesTotal | backend/apps/accounts/views.py:33 | an income raises the total by its amount iff its account is counted |
| Accounts.SumSame | backend/apps/accounts/views.py:33 | equal summands give equal totals |
| Categories.VisibleTo | backend/apps/categories/views.py:22-26 | visible iff owned by the user, or default with no owner |
| Categories.VisibleOnlyOwnOrShared | backend/apps/categories/views.py:24-26 | another user's category, or an owned default, is never visible |
| Categories.ValidateParent | backend/apps/categories/serializers.py:28-31 | as written: a missing or top-level parent is accepted unchanged; a subcategory parent is rejected |
| Categories.NewCategory | backend/apps/categories/serializers.py:21-26 | the created category is the requester's, not a default, and visible to them |
| Categories.CreateKeepsTwoLevels | backend/apps/categories/serializers.py:28-31 | on create, an accepted parent keeps nesting at two levels |
| Categories.ReparentMakesThreeLevels | backend/apps/categories/serializers.py:28-31 | re-parenting a category that has children is accepted and makes three levels |
| Categories.SelfParentAccepted | backend/apps/categories/serializers.py:28-31 | a category can be made its own parent |
| Categories.ValidateParentFor | backend/apps/categories/serializers.py:28-31 | corrected: also refuses self-parenting and a parent for a category with children |
| Categories.UpdateKeepsTwoLevels | backend/apps/categories/serializers.py:28-31 | with the corrected rule every accepted update keeps two levels |
| Categories.Cascade | backend/apps/categories/models.py:22-29 | the categories deleted with a set: it contains the set, stays inside the table, and is closed under taking subcategories |
| Categories.CascadeLeast | backend/apps/categories/models.py:22-29 | the cascade lies inside every closed set containing the deleted categories, so it deletes no more than it must |
| Categories.Destroy | backend/apps/categories/views.py:28-32 | a default is refused with nothing deleted; otherwise the category goes, with its subcategories, and no remaining category's parent was deleted; kept rows are unchanged |
| Categories.DestroyMinimal | backend/apps/categories/views.py:28-32 | every category outside a closed set containing the deleted one survives, so exactly its descendants go with it |
| Categories.DestroyCascadesTwoLevels | backend/apps/categories/models.py:22-29 | in the three-level table that re-parenting allows, deleting the top category also deletes the grandchild |
| Categories.ByType | backend/apps/categories/views.py:35-40 | visible top-level categories of the requested type, `gasto` by default |
| Dashboard.CategoryScope | backend/apps/reports/views.py:44-50 | the category plus its direct subcategories; an unknown id filters nothing |
| Dashboard.MonthRows | backend/apps/reports/views.py:26-50 | the user's entries from the first of the month to today, narrowed by the account and category filters |
| Dashboard.UnfilteredMonthIsWindow | backend/apps/reports/views.py:35-39 | unfiltered, the month's rows are the inclusive window from the first of the month to today |
| Dashboard.TopCategories | backend/apps/reports/views.py:78-84 | the categorised-expense totals per category, largest first: all of them when there are at most 20, otherwise 20, each at least the total of any category left out |
| Dashboard.Recent | backend/apps/reports/views.py:86-89 | the user's five latest entries (all when fewer), on the account if asked, latest first; none left out is later than one listed |
| Dashboard.AccountMonth | backend/apps/reports/views.py:122-133 | one account's month income and expenses |
| Dashboard.AccountStats | backend/apps/reports/views.py:122-133 | the loop writes one entry per counted account, each its month figures |
| Dashboard.OwnDebts | backend/apps/reports/views.py:114-115 | exactly the requesting user's debts |
| Dashboard.ForeignDebtIgnored | backend/apps/reports/views.py:114-120 | another user's debt leaves the requester's debt totals unchanged |
| Dashboard.GetDashboard | backend/apps/reports/views.py:24-155 | every dashboard field is the corresponding total, summary, grouping or listing over the requester's rows; the budget alerts are newest first; `debts_remaining` is over the requester's unpaid debts only |
| Reports.ReportWindow | backend/apps/reports/views.py:168-183 | week, month and year start 7, 30 and 365 days back and end today; custom takes the given bounds |
| Reports.ReportRows | backend/apps/reports/views.py:185-192 | the user's entries in the window, on the account if asked |
| Reports.ReportTotals | backend/apps/reports/views.py:221-232 | the three kind totals, and balance = income − expenses |
| Reports.TransferOutsideBalance | backend/apps/reports/views.py:221-232 | a transfer adds to the transfer total and not to the balance |
| Reports.SplitAnt | backend/apps/reports/views.py:234-242 | the ant, normal and total expense sums |
| Reports.AntPlusNormal | backend/apps/reports/views.py:60-242 | ant + normal = total expenses |
| Reports.Bucket | backend/apps/reports/views.py:194-208 | `TruncMonth` for yearly reports, `TruncDay` otherwise |
| Reports.OfKind | backend/apps/reports/views.py:194-208 | exactly the rows of one kind |
| Reports.OverTime | backend/apps/reports/views.py:194-208 | one row per bucket with its total, every bucket present, in strictly increasing date order |
| Reports.DistinctBuckets | backend/apps/reports/views.py:200-208 | rows ordered by date with distinct keys are strictly increasing |
| Reports.Categorised | backend/apps/reports/views.py:210-214 | expenses with a category |
| Reports.ReportByCategory | backend/apps/reports/views.py:210-219 | per-category total and count, largest total first, with every category of a categorised expense listed |
| Reports.ExpensesByAccount | backend/apps/reports/views.py:244-250 | per-account expense totals, largest first, every account present |
| Reports.GetReport | backend/apps/reports/views.py:161-268 | every report field is the corresponding total, series or grouping over the window |
| Orphans.QueryOrder | backend/apps/transactions/models.py:52 | the queryset's rows are the table's rows, latest date first |
| Orphans.OrphanIds | backend/apps/transactions/management/commands/fix_orphan_categories.py:38-53 | an id is listed iff its row's category exists and is not visible to the row's owner |
| Orphans.OrphanPositions | backend/apps/transactions/management/commands/fix_orphan_categories.py:55-71 | a position is listed iff its item is an orphan, in table order |
| Orphans.ScanTransactions | backend/apps/transactions/management/commands/fix_orphan_categories.py:38-53 | the first loop collects exactly the orphan transaction ids, in the order of the rows it is given |
| Orphans.ScanItems | backend/apps/transactions/management/commands/fix_orphan_categories.py:55-71 | the second loop collects exactly the orphan items |
| Orphans.Cleared | backend/apps/transactions/management/commands/fix_orphan_categories.py:101-110 | an orphan loses its category; any other row is unchanged |
| Orphans.CategoryInert | backend/apps/transactions/management/commands/fix_orphan_categories.py:104-106 | a category never moves a balance |
| Orphans.ClearStep | backend/apps/transactions/management/commands/fix_orphan_categories.py:100-110 | clearing one more orphan extends the cleared prefix |
| Orphans.ClearCategory | backend/apps/transactions/management/commands/fix_orphan_categories.py:102-106 | re-saving a reloaded row with no category keeps every balance |
| Orphans.FixTransactions | backend/apps/transactions/management/commands/fix_orphan_categories.py:100-110 | only orphans are cleared, balances are unchanged, and the counter is the number of orphans |
| Orphans.FixItems | backend/apps/transactions/management/commands/fix_orphan_categories.py:112-120 | exactly the listed items are cleared, and the counter is their number |
| Orphans.ItemIds | backend/apps/transactions/management/commands/fix_orphan_categories.py:55-71 | the ids of the items at the listed positions |
| Orphans.Handle | backend/apps/transactions/management/commands/fix_orphan_categories.py:25-126 | neither flag does nothing; the orphan transactions are collected in the queryset's order, latest date first, and the first 10 of each kind listed; changes only with `--fix`, no `--dry-run` and orphans found; balances never change |
| Email.KeyInjective | frontend/src/services/emailService.js:13-63 | two different subjects never share a throttle key |
| Email.DebtKeyInjective | frontend/src/services/emailService.js:13-33 | debt reminder keys determine the debt |
| Email.BudgetKeyInjective | frontend/src/services/emailService.js:13-63 | budget alert keys determine the budget and the alert type |
| Email.KindsDiffer | frontend/src/services/emailService.js:33-63 | a debt key is never a budget key |
| Email.CanSend | frontend/src/services/emailService.js:17-25 | true when nothing is recorded; otherwise iff at least `hoursLimit` hours have elapsed |
| Email.ThrottledAfterSend | frontend/src/services/emailService.js:27-30 | right after a send the key is throttled for any positive limit, and reopens exactly when the limit elapses |
| Email.ThrottleIndependent | frontend/src/services/emailService.js:63 | a send on one subject does not throttle another, so exceeded and low alerts are independent |
| Email.Outbox.constructor | frontend/src/services/emailService.js:17-30 | the limiter starts from the stored times |
| Email.Outbox.MarkEmailSent | frontend/src/services/emailService.js:27-30 | records the current time under the key |
| Email.Outbox.SendDebtReminder | frontend/src/services/emailService.js:32-60 | throttled: `already_sent` with nothing recorded; otherwise sent and recorded only if delivered |
| Email.Outbox.SendBudgetAlert | frontend/src/services/emailService.js:62-98 | the same, keyed by budget and alert type |
| Email.LoadPreferences | frontend/src/services/emailService.js:116-130 | defaults unless a parsed object is stored; stored keys override the defaults |
| Email.SaveThenLoad | frontend/src/services/emailService.js:116-134 | saving then loading gives back the preferences |
| Email.MergeLaws | frontend/src/stores/notifications.js:285-288 | an empty update changes nothing; two updates merge with the later winning |
| Notifications.KeyShape | frontend/src/stores/notifications.js:71-178 | the characters that tell the four alert id prefixes apart |
| Notifications.AlertKeyInjective | frontend/src/stores/notifications.js:71-178 | different alerts have different ids |
| Notifications.DismissWindow | frontend/src/stores/notifications.js:210-240 | storing `until` dismisses the id exactly before `until` and no other id |
| Notifications.MakeAlert | frontend/src/stores/notifications.js:71-86 | an alert carries its id, kind, subject, severity, and its read and dismissed state at check time |
| Notifications.UpcomingAlert | frontend/src/stores/notifications.js:66-96 | raised iff unpaid, dated and 0 ≤ days ≤ `debtDaysBefore`; danger iff days ≤ 3 |
| Notifications.OverdueAlert | frontend/src/stores/notifications.js:66-124 | raised iff unpaid, dated and days < 0; always danger |
| Notifications.Opt | frontend/src/stores/notifications.js:138-203 | at most one alert per budget |
| Notifications.DebtAlertsOf | frontend/src/stores/notifications.js:65-125 | a debt has at most one alert, and has one iff it is unpaid, dated and overdue or due soon |
| Notifications.DebtAlerts | frontend/src/stores/notifications.js:65-125 | every debt alert is of debt type |
| Notifications.DebtAlertsShape | frontend/src/stores/notifications.js:65-125 | each debt alert has its own id and names a listed debt |
| Notifications.BudgetAlertsShape | frontend/src/stores/notifications.js:138-203 | each budget alert has its own id and names a listed budget |
| Notifications.DebtKeysDistinct | frontend/src/stores/notifications.js:65-125 | distinct debts raise alerts with distinct ids |
| Notifications.SpentPercentage | frontend/src/stores/notifications.js:141-149 | the reported percentage when nonzero; otherwise spent / limit × 100 as a JavaScript number, which for a zero limit is infinite with spending and NaN without |
| Notifications.BudgetAlertOf | frontend/src/stores/notifications.js:138-203 | none for an inactive budget or one listed without a limit; exceeded (danger) iff the percentage reaches 100 (an infinite one does, NaN does not); otherwise low (warning) iff it reaches the threshold, default 80 |
| Notifications.ZeroLimitAlerts | frontend/src/stores/notifications.js:141-149 | a budget whose limit is "0.00" is not skipped: with spending and no reported percentage it is reported exceeded; without spending no alert is raised |
| Notifications.BudgetAlerts | frontend/src/stores/notifications.js:138-203 | no budget alert is of debt type |
| Notifications.BudgetKeysDistinct | frontend/src/stores/notifications.js:138-203 | distinct budgets raise alerts with distinct ids |
| Notifications.CheckedKeysDistinct | frontend/src/stores/notifications.js:42-56 | every checked list has distinct ids, so `find` reaches the only alert with an id |
| Notifications.Emailed | frontend/src/stores/notifications.js:88-95 | the alerts mailed: the unread ones, when e-mail is on |
| Notifications.Visible | frontend/src/stores/notifications.js:22 | `allAlerts`: the alerts not dismissed |
| Notifications.Unread | frontend/src/stores/notifications.js:23 | visible alerts not stored as read |
| Notifications.Read | frontend/src/stores/notifications.js:24 | visible alerts stored as read |
| Notifications.ReadPartition | frontend/src/stores/notifications.js:22-24 | unread and read partition the visible alerts |
| Notifications.UnreadCons | frontend/src/stores/notifications.js:23 | the unread list of a non-empty list, one head at a time |
| Notifications.UnreadAfterMark | frontend/src/stores/notifications.js:224-235 | after marking an id read, the unread list loses exactly the alerts with that id |
| Notifications.MarkFirst | frontend/src/stores/notifications.js:229-232 | the list after `find`: the first alert with the id is flagged read and every other alert kept |
| Notifications.FirstWithKey | frontend/src/stores/notifications.js:229-242 | `find`: the first alert with the id, or none |
| Notifications.EmailSubject | frontend/src/stores/notifications.js:254-272 | debt alerts send a debt reminder, budget alerts a budget alert |
| Notifications.ThrottleSharing | frontend/src/stores/notifications.js:254-272 | a debt's two alerts share one throttle; a budget's two do not |
| Notifications.EmailedAppend | frontend/src/stores/notifications.js:88-95 | mailing distributes over concatenation |
| Notifications.DebtStep | frontend/src/stores/notifications.js:65-125 | one more debt appends its alerts |
| Notifications.PushDebt | frontend/src/stores/notifications.js:66-125 | the alerts pushed for one debt |
| Notifications.PushBudget | frontend/src/stores/notifications.js:139-203 | the alert pushed for one budget |
| Notifications.CollectDebtAlerts | frontend/src/stores/notifications.js:65-125 | the `forEach` over the debts pushes exactly `DebtAlerts` and mails the unread ones |
| Notifications.BudgetStep | frontend/src/stores/notifications.js:138-203 | one more budget appends its alert |
| Notifications.CollectBudgetAlerts | frontend/src/stores/notifications.js:138-203 | the `forEach` over the budgets pushes exactly `BudgetAlerts` and mails the unread ones |
| Notifications.KeysOf | frontend/src/stores/notifications.js:248-252 | the ids of the alerts, in order |
| Notifications.DismissKeysEffect | frontend/src/stores/notifications.js:248-252 | dismissing a list sets each id's time, keeps every other entry, and hides them all until then |
| Notifications.Store.constructor | frontend/src/stores/notifications.js:8-20 | an empty alert list with preferences loaded from storage |
| Notifications.Store.Pending | frontend/src/stores/notifications.js:26-31 | read alerts under the `read` filter, unread otherwise, all visible |
| Notifications.Store.AlertCount | frontend/src/stores/notifications.js:33 | the unread count, at most the visible count |
| Notifications.Store.SetFilter | frontend/src/stores/notifications.js:38-40 | only the filter changes |
| Notifications.Store.CheckDebtAlerts | frontend/src/stores/notifications.js:58-129 | with reminders off nothing changes; otherwise the debt alerts are appended and the unread ones mailed |
| Notifications.Store.CheckBudgetAlerts | frontend/src/stores/notifications.js:131-208 | with budget alerts off nothing changes; otherwise the budget alerts are appended and the unread ones mailed |
| Notifications.Store.CheckAlerts | frontend/src/stores/notifications.js:42-56 | the list is rebuilt, debts first, and the unread alerts mailed |
| Notifications.Store.MarkAsRead | frontend/src/stores/notifications.js:224-235 | the id is stored as read, the first alert with it flagged, and unread loses that id |
| Notifications.DismissFirst | frontend/src/stores/notifications.js:242-245 | the list after `find`: the first alert with the id is flagged dismissed and every other alert kept |
| Notifications.FirstWithKeySameKeys | frontend/src/stores/notifications.js:242 | flagging alerts keeps their ids, so `find` picks the same alert afterwards |
| Notifications.DismissFirstAllEffect | frontend/src/stores/notifications.js:248-252 | dismissing a list of ids flags, for each listed id, the first alert carrying it, and keeps every other alert |
| Notifications.DismissFirstAllHides | frontend/src/stores/notifications.js:248-252 | with distinct alert ids, no alert whose id was dismissed stays visible |
| Notifications.Store.DismissAlert | frontend/src/stores/notifications.js:237-246 | the id is dismissed until now + hours × 3600000 and the first alert with it flagged |
| Notifications.Store.DismissAll | frontend/src/stores/notifications.js:248-252 | every pending alert's id is dismissed until the same time, and the alert list is the old one with each pending id's first alert flagged dismissed |
| Notifications.Store.UpdatePreferences | frontend/src/stores/notifications.js:285-288 | the merged preferences are stored and load back unchanged |
| Notifications.Store.ClearAlerts | frontend/src/stores/notifications.js:290-292 | the alert list is emptied and storage kept |
| Notifications.SendEmailForAlert | frontend/src/stores/notifications.js:254-272 | a throttled alert sends nothing; otherwise a send is recorded only if delivered |
| Currency.Round | frontend/src/composables/useCurrency.js:3 | `Math.round`: within half of the input, halves upward |
| Currency.Grouped | frontend/src/composables/useCurrency.js:4 | up to three digits are left as they are |
| Currency.WithoutDots | frontend/src/composables/useCurrency.js:4 | the string without separators has no '.' |
| Currency.GroupedDigits | frontend/src/composables/useCurrency.js:4 | deleting the separators gives back the digits |
| Currency.GroupedSeparators | frontend/src/composables/useCurrency.js:4 | a '.' before every group of three from the right, never first |
| Currency.FormatCLP | frontend/src/composables/useCurrency.js:2-5 | the output starts with '$' |
| Currency.FormatPesos | frontend/src/composables/useCurrency.js:38 | the output starts with '$' |
| Currency.FormatCLPDigits | frontend/src/composables/useCurrency.js:3-4 | deleting '$' and the separators gives the rounded value's decimal digits; below 1000 there is no separator |
| Currency.FormatPesosDigits | frontend/src/composables/useCurrency.js:38 | the same for an integer already rounded |
| Currency.FormatCurrency | frontend/src/composables/useCurrency.js:7-17 | the dollar path only for `USD`, formatting the value or 0 when `Number` cannot read it; the peso path otherwise |
| Currency.FormatMoneyAgrees | frontend/src/composables/useCurrency.js:33-39 | `formatMoney` agrees with `formatCurrency` on pesos and on readable dollar values; on an unreadable dollar value it gives "US$NaN" where `formatCurrency` gives "US$0.00" |
| Currency.FormatDate | frontend/src/composables/useCurrency.js:41-47 | '' iff the input is empty |
| Currency.FormatDateFields | frontend/src/composables/useCurrency.js:44-47 | DD/MM/YYYY with two-digit day and month that read back as the date's |
| Dates.AddDaysOrdinal | backend/apps/transactions/views.py:94 | `timedelta(days=n)` moves the day number by n |
| Dates.PrevOfFirst | backend/apps/transactions/views.py:93-94 | the day before the first of a month is the last day of the month before |
| Dates.MinusOneMonth | backend/apps/transactions/views.py:93 | `relativedelta(months=1)` back lands in the previous calendar month |
| Dates.LexicographicOrder | backend/apps/transactions/views.py:145-148 | comparing dates is comparing (year, month, day) |
| Text.NatStringValue | frontend/src/composables/useCurrency.js:4 | `toString` of a non-negative integer reads back as the integer |

## Left out

- HTTP and ORM plumbing. Requests, responses, status codes and serializer field lists are not modelled. A refused request is a `Rejected` value or a `false` result.
- Rounding and float conversion. Percentages are exact reals. The two-decimal rounding in the bet statistics, the one-decimal rounding of the budget percentage, and the `float()` conversions in goals are not modelled.
- Text the user only reads. Descriptions, notes, alert titles and messages, and e-mail template parameters are left out.
- Clocks and I/O. `date.today()`, `timezone.now()`, `Date.now()` and the JavaScript `Date` parsing are parameters. `getDaysUntilDue` is not modelled: a debt's days to its due date are an input to the notification check.
- Ordering within equal dates. `created_at` is not part of an entry. The ordering `['-date', '-created_at']` of the transaction lists is modelled by date; in the views' lists ties keep table order. The recurring command's queryset orders by `next_execution` alone, so Recurring.ProcessRecurring accepts templates with equal next runs in any order. Orphans.QueryOrder sorts the reversed table, so ties come later-created first, but its contract states only the date order.
- The transaction `recent` action. It takes the first rows of the default ordering. The dashboard's recent list, which does the same, is modelled by `Dashboard.Recent`.
- Currency.FormatCurrency: the text `toFixed(2)` and the comma grouping produce for a dollar amount is not modelled; the model keeps the amount formatted (or NaN). `parseCurrency` is left out: it is floating-point `parseFloat` work.
- Currency.FormatCLP: the value is taken as already converted by `Number(...)`. A value `Number` cannot read is `None`.
- The e-mail `formatCurrency` helper. It is the same expression as `formatCLP`, so `Currency.FormatCLP` models it.
- E-mail delivery. The provider's answer is the `delivered` input of the send methods.
- `sendAllPendingEmails`. It awaits the sends one after another, and each is `Notifications.SendEmailForAlert`.
- Async interleaving. `checkAlerts` runs the debt and budget checks under `Promise.all`. Which response arrives first is not modelled: the debts' alerts come first in `Notifications.Store.CheckAlerts`. Each check reads the clock at one instant (`now`).
- Notifications.Store.CheckDebtAlerts: the upcoming and overdue alerts of one debt both mail through the debt-reminder throttle. The second alert mailed for a debt within a day reports `already_sent` (`Notifications.ThrottleSharing`).
- Ledger.Reverse: a self-transfer's reversal is modelled on two pre-loaded account instances, as in a delete. The reversal in an edit and in the orphan repair reads the stored row afresh and loads its destination only after the debit was saved, which nets that reversal to zero; the model does not capture this lazy load.
- Categories.Destroy: the delete's cascade to other tables is not modelled. Budgets (backend/apps/budgets/models.py:14) and goals (backend/apps/goals/models.py:31-33) of a deleted category are deleted with it, and transactions keep their row with the category set to null (backend/apps/transactions/migrations/0001_initial.py:30); the catalog holds categories only.
- JSON number encoding. Decimal fields arrive as strings and are taken as the numbers they read as. The one whose truthiness the code tests, a budget's `amount_limit`, keeps the string's: it is falsy only when absent, even at "0.00". Fields the API sends as numbers are falsy when absent or zero.
- The export and import views of the reports module. These are CSV and spreadsheet I/O.
- Concurrency. The code has no locks or transactions, and requests are modelled one at a time.
- Python's date range (years 1 to 9999) is not enforced. Years are unbounded in the model.
- Budgets.PeriodDates: a Sunday is counted as the last day of its week. `date.weekday()` is 6 there, which is the code's behaviour.

## Findings

| source | as written | input that shows it | evidently intended | confidence | as-written member | corrected member |
|---|---|---|---|---|---|---|
| backend/apps/transactions/models.py:61-70 | An edit reverses the old effect on a freshly loaded account and writes it. It then applies the new effect to `self.account`, which the viewset pre-loaded, and writes that. | An income of 100000 on an account holding 100000 is edited down to 60000. The account ends at 160000. | The old effect is reversed and the new one applied to the same balance, which gives 60000. | medium, not executed | Ledger.StaleEditExample | Ledger.Ledger.Update |
| backend/apps/bets/models.py:181-188 | The bet's transactions are removed with a bulk `QuerySet.delete()`. This does not call `Transaction.delete`, so their effect stays in the balances. | A lost bet of 5000 is made on an account holding 100000, which leaves 95000. Deleting the bet leaves 95000. | The balance returns to 100000, as the comments at lines 106 and 110 say. | high, not executed | Bets.BulkDeleteExample | Bets.DeleteBet |
| backend/apps/transactions/management/commands/process_recurring.py:13-36 | Each template carries its own pre-loaded copy of its account. Each occurrence adds its effect to that copy and saves it. | Two due monthly incomes of 100 on one account holding 0. The account ends at 100. | Both occurrences count, which gives 200. | medium, not executed | Recurring.StaleRunExample | Recurring.ProcessRecurring |
| backend/apps/transactions/management/commands/process_recurring.py:63-64 | The yearly step uses `replace(year=year + 1)`. | A yearly template whose next run is 2024-02-29: `replace` raises after the transaction was created, so the template is never advanced. | The date is clamped to 28 February in a common year, like the monthly clamp. | high, not executed | Recurring.LeapDayYearlyFails | Recurring.NextDate |
| backend/apps/categories/serializers.py:28-31 | `validate_parent` only checks whether the new parent has a parent. | Top-level category 1 has a child 2. Updating category 1 to have parent 3 is accepted and makes three levels. Parent 1 for category 1 is also accepted. | No nesting beyond two levels, as the error message says. | high, not executed | Categories.ReparentMakesThreeLevels | Categories.UpdateKeepsTwoLevels |
| backend/apps/goals/models.py:116-121 | A reduction goal's progress measures `baseline - current_amount`. `current_amount` is already `baseline - expenses`, so this measures the category's spending, and `is_completed` holds once spending reaches the target (`Goals.ReductionCompletion`). | Baseline 1000 and target reduction 200. Spending nothing shows 0 progress. Spending 1000 shows 100. | Progress grows as spending falls below the baseline. | high, not executed | Goals.ReductionProgressInverted | Goals.ProgressPenalisesSpending |
