/** `DashboardView.get`: the user's net worth, this month's figures (optionally
    narrowed to one account and to a category with its subcategories), the latest
    transactions, budget alerts, investment and debt totals, and per-account figures. */
module Dashboard {
  import opened Common
  import opened Dates
  import opened Ledger
  import opened Categories
  import opened TransactionViews
  import Accounts
  import Budgets
  import BudgetViews
  import Investments
  import Debts
  import DebtViews
  import Reports
  import Aggregate

  /** The category filter: the category and its direct subcategories when the id names
      a category; an id that names none filters nothing. */
  function CategoryScope(cats: Catalog, requested: Option<CategoryId>): (r: Option<set<CategoryId>>)
    ensures requested.None? || requested.value !in cats ==> r.None?
    ensures requested.Some? && requested.value in cats ==> (r.Some? &&
      forall id :: id in r.value <==> id == requested.value || (id in cats && cats[id].parent == requested))
  {
    if requested.Some? && requested.value in cats then
      Some({requested.value} + set id | id in cats && cats[id].parent == requested)
    else None
  }

  predicate InScope(e: Entry, scope: Option<set<CategoryId>>) {
    scope.None? || (e.category.Some? && e.category.value in scope.value)
  }

  /** `month_transactions`: the user's entries from the first of the month to today,
      narrowed by the account and category filters. */
  function MonthRows(rows: seq<Entry>, user: UserId, today: CalendarDate, account: Option<AccountId>,
                     scope: Option<set<CategoryId>>): (r: seq<Entry>)
    ensures forall e :: e in r <==> (e in rows && e.user == user && Le(FirstOfMonth(today), e.date) &&
      Le(e.date, today) && (account.None? || account == Some(e.account)) && InScope(e, scope))
  {
    Aggregate.Filter(rows, (e: Entry) => e.user == user && Le(FirstOfMonth(today), e.date) && Le(e.date, today) &&
      (account.None? || account == Some(e.account)) && InScope(e, scope))
  }

  /** Without filters the month's rows are the summary window from the first of the month to today. */
  lemma {:induction false} UnfilteredMonthIsWindow(rows: seq<Entry>, user: UserId, today: CalendarDate)
    ensures MonthRows(rows, user, today, None, None) == Window(rows, user, Some(FirstOfMonth(today)), Some(today))
  {
    var account: Option<AccountId> := None;
    var scope: Option<set<CategoryId>> := None;
    Aggregate.FilterSame(rows,
      (e: Entry) => e.user == user && Le(FirstOfMonth(today), e.date) && Le(e.date, today) &&
        (account.None? || account == Some(e.account)) && InScope(e, scope),
      (e: Entry) => e.user == user && InRange(e.date, Some(FirstOfMonth(today)), Some(today)));
  }

  function CategorisedExpense(e: Entry): bool {
    e.kind == Expense && e.category.Some?
  }

  /** `expenses_by_category`: the month's categorised expenses per category, largest first:
      the 20 largest, or all of them when there are at most 20. */
  function TopCategories(r: seq<Entry>): (rows: seq<(Option<CategoryId>, int)>)
    ensures var xs := Aggregate.Filter(r, CategorisedExpense);
      var n := |Aggregate.Keys(xs, CategoryOf)|;
      |rows| == (if n <= 20 then n else 20)
    ensures Aggregate.SortedDesc(rows)
    ensures forall row :: row in rows ==>
      row.0.Some? && row.1 == Aggregate.KeyTotal(Aggregate.Filter(r, CategorisedExpense), CategoryOf, Amount, row.0)
    ensures var xs := Aggregate.Filter(r, CategorisedExpense);
      forall e :: e in xs ==>
        (exists row :: row in rows && row.0 == e.category) ||
        (|rows| == 20 && forall k :: 0 <= k < |rows| ==> rows[k].1 >= Aggregate.KeyTotal(xs, CategoryOf, Amount, e.category))
  {
    var xs := Aggregate.Filter(r, CategorisedExpense);
    var g := Aggregate.GroupByTotalDesc(xs, CategoryOf, Amount);
    Aggregate.GroupByTotalDescRows(xs, CategoryOf, Amount);
    Aggregate.TakeSortedDesc(g, 20);
    Aggregate.TakeGroupByTotalDescCovers(xs, CategoryOf, Amount, 20);
    Aggregate.Take(g, 20)
  }

  /** The rows `recent_transactions` draws from: the user's, on the given account if one is asked for. */
  function RecentScope(rows: seq<Entry>, user: UserId, account: Option<AccountId>): (r: seq<Entry>)
    ensures forall e :: e in r <==> e in rows && e.user == user && (account.None? || e.account == account.value)
  {
    Aggregate.Filter(rows, (e: Entry) => e.user == user && (account.None? || e.account == account.value))
  }

  /** `recent_transactions`: the user's five latest entries, on the given account if
      one is asked for; neither the month nor the category filter applies. */
  function Recent(rows: seq<Entry>, user: UserId, account: Option<AccountId>): (r: seq<Entry>)
    ensures var mine := RecentScope(rows, user, account);
      |r| == (if |mine| <= 5 then |mine| else 5) &&
      multiset(r) <= multiset(mine) &&
      forall e :: e in mine && e !in r ==> forall k :: 0 <= k < |r| ==> Le(e.date, r[k].date)
    ensures forall i, j :: 0 <= i < j < |r| ==> Le(r[j].date, r[i].date)
  {
    var mine := RecentScope(rows, user, account);
    LatestFive(mine);
    Aggregate.Take(Aggregate.SortBy(mine, LatestFirst), 5)
  }

  /** One account's income and expenses this month, whatever filters the dashboard was given. */
  function AccountMonth(rows: seq<Entry>, user: UserId, id: AccountId, today: CalendarDate): (s: (int, int))
    ensures var r := MonthRows(rows, user, today, Some(id), None);
      s == (KindTotal(r, Income), KindTotal(r, Expense))
  {
    var r := MonthRows(rows, user, today, Some(id), None);
    (KindTotal(r, Income), KindTotal(r, Expense))
  }

  function IdOf(a: Accounts.AccountRow): AccountId {
    a.id
  }

  /** `account_stats`: the loop writes one entry per counted account. */
  method AccountStats(accts: seq<Accounts.AccountRow>, rows: seq<Entry>, user: UserId, today: CalendarDate)
    returns (stats: map<AccountId, (int, int)>)
    ensures stats.Keys == set a | a in Accounts.Included(accts, user) :: a.id
    ensures forall id :: id in stats ==> stats[id] == AccountMonth(rows, user, id, today)
  {
    var counted := Accounts.Included(accts, user);
    stats := map[];
    var i := 0;
    while i < |counted|
      invariant 0 <= i <= |counted|
      invariant stats.Keys == set a | a in counted[..i] :: a.id
      invariant forall id :: id in stats ==> stats[id] == AccountMonth(rows, user, id, today)
    {
      var acc := counted[i];
      assert counted[..i + 1] == counted[..i] + [acc];
      stats := stats[acc.id := AccountMonth(rows, user, acc.id, today)];
      i := i + 1;
    }
    assert counted[..i] == counted;
  }

  datatype DashboardData = DashboardData(
    totalBalance: int,
    accountsCount: nat,
    month: Summary,
    byCategory: seq<(Option<CategoryId>, int)>,
    recent: seq<Entry>,
    budgetAlerts: seq<BudgetViews.Alert>,
    investmentsTotal: int,
    debtsRemaining: int,
    accountStats: map<AccountId, (int, int)>,
    ant: Reports.AntSplit,
    byAccount: seq<(AccountId, int)>)

  /** The requester's own debts: the dashboard's debt query is filtered by user. */
  function OwnDebts(debts: seq<Debts.DebtRecord>, user: UserId): (r: seq<Debts.DebtRecord>)
    ensures forall x :: x in r <==> x in debts && x.user == user
  {
    Aggregate.Filter(debts, (x: Debts.DebtRecord) => x.user == user)
  }

  /** Another user's debt, paid or not, never moves the requester's `debts_remaining`. */
  lemma {:induction false} ForeignDebtIgnored(debts: seq<Debts.DebtRecord>, user: UserId, x: Debts.DebtRecord)
    requires x.user != user
    ensures DebtViews.TypeTotals(OwnDebts(debts + [x], user), Debts.Owed) ==
            DebtViews.TypeTotals(OwnDebts(debts, user), Debts.Owed)
  {
    Aggregate.FilterAppend(debts, [x], (x: Debts.DebtRecord) => x.user == user);
    assert OwnDebts([x], user) == [];
    assert OwnDebts(debts, user) + [] == OwnDebts(debts, user);
  }

  /** `DashboardView.get`. */
  method GetDashboard(accts: seq<Accounts.AccountRow>, balances: Balances, rows: seq<Entry>, cats: Catalog,
                      budgets: seq<Budgets.Budget>, invs: seq<Investments.Investment>, debts: seq<Debts.DebtRecord>,
                      user: UserId, today: CalendarDate, account: Option<AccountId>, category: Option<CategoryId>)
    returns (d: DashboardData)
    ensures d.totalBalance == Accounts.IncludedTotal(accts, balances, user)
    ensures d.accountsCount == |Accounts.Included(accts, user)|
    ensures var r := MonthRows(rows, user, today, account, CategoryScope(cats, category));
      d.month.income == KindTotal(r, Income) && d.month.expenses == KindTotal(r, Expense) &&
      d.month.balance == d.month.income - d.month.expenses &&
      d.byCategory == TopCategories(r) && d.ant == Reports.SplitAnt(r) &&
      d.byAccount == Reports.ExpensesByAccount(r)
    ensures d.recent == Recent(rows, user, account)
    ensures d.budgetAlerts == BudgetViews.AlertsFor(BudgetViews.ActiveData(budgets, user, rows, today))
    ensures d.investmentsTotal == Investments.Summary(invs, user).totalCurrent
    ensures d.debtsRemaining == DebtViews.TypeTotals(OwnDebts(debts, user), Debts.Owed).remaining
    ensures d.accountStats.Keys == set a | a in Accounts.Included(accts, user) :: a.id
    ensures forall id :: id in d.accountStats ==> d.accountStats[id] == AccountMonth(rows, user, id, today)
  {
    var report := Accounts.TotalBalance(accts, balances, user);
    var r := MonthRows(rows, user, today, account, CategoryScope(cats, category));
    var income := KindTotal(r, Income);
    var expenses := KindTotal(r, Expense);
    var alerts := BudgetViews.Alerts(budgets, user, rows, today);
    var stats := AccountStats(accts, rows, user, today);
    d := DashboardData(report.totalBalance, |Accounts.Included(accts, user)|, Summary(income, expenses, income - expenses),
                       TopCategories(r), Recent(rows, user, account), alerts,
                       Investments.Summary(invs, user).totalCurrent,
                       DebtViews.TypeTotals(OwnDebts(debts, user), Debts.Owed).remaining, stats,
                       Reports.SplitAnt(r), Reports.ExpensesByAccount(r));
  }
}
