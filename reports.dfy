/** `ReportsView.get`: the report window for a period, the totals over it, the
    income and expense series per day or per month, and the expense breakdowns. */
module Reports {
  import opened Common
  import opened Dates
  import opened Ledger
  import opened TransactionViews
  import Aggregate

  /** The `period` parameter: `week`, `month`, `year`, `custom`, or any other text. */
  datatype ReportPeriod = Week | Month | Year | Custom | UnlistedPeriod(code: string)

  /** The window of the report.  Week, month and year go back 7, 30 and 365 days
      and end today; `custom` takes the given bounds, defaulting to 30 days back and
      today; any other period takes the given start but always ends today. */
  function ReportWindow(p: ReportPeriod, today: CalendarDate, start: Option<CalendarDate>, end: Option<CalendarDate>): (w: (CalendarDate, CalendarDate))
    ensures p != Custom ==> w.1 == today
    ensures p == Week ==> Ordinal(w.0) + 7 == Ordinal(today)
    ensures p == Month ==> Ordinal(w.0) + 30 == Ordinal(today)
    ensures p == Year ==> Ordinal(w.0) + 365 == Ordinal(today)
    ensures p == Custom ==> w == (start.GetOr(AddDays(today, -30)), end.GetOr(today))
    ensures p.UnlistedPeriod? ==> w.0 == start.GetOr(AddDays(today, -30))
  {
    var back := match p
      case Week => 7
      case Year => 365
      case _ => 30;
    AddDaysOrdinal(today, -back);
    match p
    case Week => (AddDays(today, -7), today)
    case Month => (AddDays(today, -30), today)
    case Year => (AddDays(today, -365), today)
    case Custom => (start.GetOr(AddDays(today, -30)), end.GetOr(today))
    case UnlistedPeriod(_) => (start.GetOr(AddDays(today, -30)), today)
  }

  /** The report's rows: the user's entries within the window, on the given account if one is asked for. */
  function ReportRows(rows: seq<Entry>, user: UserId, w: (CalendarDate, CalendarDate), account: Option<AccountId>): (r: seq<Entry>)
    ensures forall e :: e in r <==> (e in rows && e.user == user && Le(w.0, e.date) && Le(e.date, w.1) &&
      (account.None? || e.account == account.value))
  {
    Aggregate.Filter(rows, (e: Entry) => e.user == user && Le(w.0, e.date) && Le(e.date, w.1) &&
      (account.None? || e.account == account.value))
  }

  datatype Totals = Totals(income: int, expenses: int, transfers: int, balance: int)

  /** `totals`: the three kind totals (an empty sum is 0); the balance leaves transfers out. */
  function ReportTotals(r: seq<Entry>): (t: Totals)
    ensures t.income == KindTotal(r, Income) && t.expenses == KindTotal(r, Expense)
    ensures t.transfers == KindTotal(r, Transfer)
    ensures t.balance == t.income - t.expenses
  {
    var income := KindTotal(r, Income);
    var expenses := KindTotal(r, Expense);
    Totals(income, expenses, KindTotal(r, Transfer), income - expenses)
  }

  /** A transfer adds to the transfer total but not to the balance. */
  lemma {:induction false} TransferOutsideBalance(r: seq<Entry>, e: Entry)
    requires e.kind == Transfer
    ensures ReportTotals(r + [e]).transfers == ReportTotals(r).transfers + e.amount
    ensures ReportTotals(r + [e]).balance == ReportTotals(r).balance
  {
    Aggregate.FilterAppend(r, [e], (x: Entry) => x.kind == Transfer);
    Aggregate.FilterAppend(r, [e], (x: Entry) => x.kind == Income);
    Aggregate.FilterAppend(r, [e], (x: Entry) => x.kind == Expense);
    var t := Aggregate.Filter(r, (x: Entry) => x.kind == Transfer);
    assert Aggregate.Filter([e], (x: Entry) => x.kind == Transfer) == [e];
    assert Aggregate.Filter([e], (x: Entry) => x.kind == Income) == [];
    assert Aggregate.Filter([e], (x: Entry) => x.kind == Expense) == [];
    Aggregate.SumAppend(t, [e], Amount);
    assert Aggregate.Filter(r, (x: Entry) => x.kind == Income) + [] == Aggregate.Filter(r, (x: Entry) => x.kind == Income);
    assert Aggregate.Filter(r, (x: Entry) => x.kind == Expense) + [] == Aggregate.Filter(r, (x: Entry) => x.kind == Expense);
  }

  function IsAntExpense(e: Entry): bool {
    e.kind == Expense && e.isAntExpense
  }

  function IsNormalExpense(e: Entry): bool {
    e.kind == Expense && !e.isAntExpense
  }

  function IsExpense(e: Entry): bool {
    e.kind == Expense
  }

  datatype AntSplit = AntSplit(ant: int, normal: int, total: int)

  /** `ant_expenses`: expenses flagged as ant expenses, the others, and all expenses. */
  function SplitAnt(r: seq<Entry>): (s: AntSplit)
    ensures s.ant == Aggregate.Sum(Aggregate.Filter(r, IsAntExpense), Amount)
    ensures s.normal == Aggregate.Sum(Aggregate.Filter(r, IsNormalExpense), Amount)
    ensures s.total == KindTotal(r, Expense)
  {
    AntSplit(Aggregate.Sum(Aggregate.Filter(r, IsAntExpense), Amount),
             Aggregate.Sum(Aggregate.Filter(r, IsNormalExpense), Amount),
             KindTotal(r, Expense))
  }

  /** `is_ant_expense` is a plain boolean, so ant and normal expenses make up all expenses. */
  lemma AntPlusNormal(r: seq<Entry>)
    ensures SplitAnt(r).ant + SplitAnt(r).normal == SplitAnt(r).total
  {
    Aggregate.FilterSame(r, (e: Entry) => e.kind == Expense, IsExpense);
    Aggregate.SumPartition(r, IsExpense, IsAntExpense, IsNormalExpense, Amount);
  }

  /** `TruncDay` for week, month and custom reports, `TruncMonth` for yearly ones. */
  function Bucket(p: ReportPeriod, d: CalendarDate): (b: CalendarDate)
    ensures p == Year ==> b == FirstOfMonth(d)
    ensures p != Year ==> b == d
  {
    if p == Year then FirstOfMonth(d) else d
  }

  function DayRank(d: CalendarDate): int {
    Ordinal(d)
  }

  /** The rows of one kind in the report, keyed by their bucket. */
  function OfKind(r: seq<Entry>, k: Kind): (s: seq<Entry>)
    ensures forall e :: e in s <==> e in r && e.kind == k
  {
    Aggregate.Filter(r, (e: Entry) => e.kind == k)
  }

  /** `income_over_time` / `expenses_over_time`: one row per bucket that has entries
      of the kind, with their total, in date order. */
  function OverTime(r: seq<Entry>, k: Kind, p: ReportPeriod): (series: seq<(CalendarDate, int)>)
    ensures forall i, j :: 0 <= i < j < |series| ==> Lt(series[i].0, series[j].0)
    ensures forall row :: row in series ==>
      row.1 == Aggregate.KeyTotal(OfKind(r, k), (e: Entry) => Bucket(p, e.date), Amount, row.0)
    ensures forall e :: e in r && e.kind == k ==> exists row :: row in series && row.0 == Bucket(p, e.date)
  {
    var xs := OfKind(r, k);
    var key := (e: Entry) => Bucket(p, e.date);
    var series := Aggregate.GroupByKeyAsc(xs, key, Amount, DayRank);
    Aggregate.GroupByKeyAscRows(xs, key, Amount, DayRank);
    DistinctBuckets(xs, key, series);
    series
  }

  /** Rows of a grouping carry distinct keys, so sorted by date they are strictly increasing. */
  lemma DistinctBuckets(xs: seq<Entry>, key: Entry -> CalendarDate, series: seq<(CalendarDate, int)>)
    requires multiset(series) == multiset(Aggregate.GroupTotals(xs, key, Amount))
    requires forall i, j :: 0 <= i < j < |series| ==> DayRank(series[i].0) <= DayRank(series[j].0)
    ensures forall i, j :: 0 <= i < j < |series| ==> Lt(series[i].0, series[j].0)
  {
    var g := Aggregate.GroupTotals(xs, key, Amount);
    forall i, j | 0 <= i < j < |series|
      ensures Lt(series[i].0, series[j].0)
    {
      if Ordinal(series[i].0) == Ordinal(series[j].0) {
        OrdinalInjective(series[i].0, series[j].0);
        assert series[i] in multiset(g);
        assert series[j] in multiset(g);
        var a :| 0 <= a < |g| && g[a] == series[i];
        var b :| 0 <= b < |g| && g[b] == series[j];
        if a == b {
          SameRowTwice(series, g, i, j);
          assert false;
        } else {
          assert false;
        }
      }
    }
  }

  /** A row that occurs once in a table cannot sit at two positions of a permutation of it. */
  lemma SameRowTwice<T>(series: seq<T>, g: seq<T>, i: nat, j: nat)
    requires multiset(series) == multiset(g) && i < j < |series|
    requires forall a, b :: 0 <= a < b < |g| ==> g[a] != g[b]
    ensures series[i] != series[j]
  {
    if series[i] == series[j] {
      var x := series[i];
      assert series == series[..i] + [x] + series[i + 1..j] + [x] + series[j + 1..];
      assert multiset(series)[x] >= 2;
      Unique(g, x);
    }
  }

  lemma Unique<T>(g: seq<T>, x: T)
    requires forall a, b :: 0 <= a < b < |g| ==> g[a] != g[b]
    ensures multiset(g)[x] <= 1
  {
    if g != [] {
      Unique(g[1..], x);
      assert g == [g[0]] + g[1..];
      if g[0] == x {
        assert x !in g[1..];
      }
    }
  }

  // ---------------------------------------------------------------------
  // Breakdowns

  function AccountOf(e: Entry): AccountId {
    e.account
  }

  predicate HasCategory(e: Entry) {
    e.kind == Expense && e.category.Some?
  }

  function Categorised(r: seq<Entry>): (s: seq<Entry>)
    ensures forall e :: e in s <==> e in r && e.kind == Expense && e.category.Some?
  {
    Aggregate.Filter(r, HasCategory)
  }

  /** `by_category`: expenses with a category, grouped by category, largest total first, with counts. */
  function ReportByCategory(r: seq<Entry>): (rows: seq<(Option<CategoryId>, int, nat)>)
    ensures forall i, j :: 0 <= i < j < |rows| ==> rows[i].1 >= rows[j].1
    ensures forall row :: row in rows ==>
      row.0.Some? &&
      row.1 == Aggregate.KeyTotal(Categorised(r), CategoryOf, Amount, row.0) &&
      row.2 == Aggregate.Count(Categorised(r), (e: Entry) => CategoryOf(e) == row.0)
    ensures forall e :: e in Categorised(r) ==> exists row :: row in rows && row.0 == e.category
  {
    var xs := Categorised(r);
    var g := Aggregate.GroupByTotalDesc(xs, CategoryOf, Amount);
    Aggregate.GroupByTotalDescRows(xs, CategoryOf, Amount);
    var rows := seq(|g|, i requires 0 <= i < |g| => (g[i].0, g[i].1, Aggregate.Count(xs, (e: Entry) => CategoryOf(e) == g[i].0)));
    SameKeysCover(xs, g, rows);
    rows
  }

  /** Rows that list the same categories, in the same places, as a grouping that covers
      every categorised expense also cover every one of them. */
  lemma SameKeysCover(xs: seq<Entry>, g: seq<(Option<CategoryId>, int)>, rows: seq<(Option<CategoryId>, int, nat)>)
    requires |rows| == |g| && forall i :: 0 <= i < |g| ==> rows[i].0 == g[i].0
    requires forall e :: e in xs ==> exists row :: row in g && row.0 == CategoryOf(e)
    ensures forall e :: e in xs ==> exists row :: row in rows && row.0 == e.category
  {
    forall e | e in xs
      ensures exists row :: row in rows && row.0 == e.category
    {
      var row :| row in g && row.0 == CategoryOf(e);
      var i :| 0 <= i < |g| && g[i] == row;
      assert rows[i].0 == e.category;
    }
  }

  /** `expenses_by_account`: expenses grouped by account, largest total first. */
  function ExpensesByAccount(r: seq<Entry>): (rows: seq<(AccountId, int)>)
    ensures Aggregate.SortedDesc(rows)
    ensures forall row :: row in rows ==> row.1 == Aggregate.KeyTotal(Expenses(r), AccountOf, Amount, row.0)
    ensures forall e :: e in r && e.kind == Expense ==> exists row :: row in rows && row.0 == e.account
  {
    Aggregate.GroupByTotalDescRows(Expenses(r), AccountOf, Amount);
    Aggregate.GroupByTotalDesc(Expenses(r), AccountOf, Amount)
  }

  datatype Report = Report(
    window: (CalendarDate, CalendarDate),
    incomeOverTime: seq<(CalendarDate, int)>,
    expensesOverTime: seq<(CalendarDate, int)>,
    byCategory: seq<(Option<CategoryId>, int, nat)>,
    totals: Totals,
    ant: AntSplit,
    byAccount: seq<(AccountId, int)>)

  /** `ReportsView.get`. */
  function GetReport(rows: seq<Entry>, user: UserId, p: ReportPeriod, today: CalendarDate,
                     start: Option<CalendarDate>, end: Option<CalendarDate>, account: Option<AccountId>): (rep: Report)
    ensures rep.window == ReportWindow(p, today, start, end)
    ensures var r := ReportRows(rows, user, rep.window, account);
      rep.totals == ReportTotals(r) && rep.ant == SplitAnt(r) &&
      rep.incomeOverTime == OverTime(r, Income, p) && rep.expensesOverTime == OverTime(r, Expense, p) &&
      rep.byCategory == ReportByCategory(r) && rep.byAccount == ExpensesByAccount(r)
  {
    var w := ReportWindow(p, today, start, end);
    var r := ReportRows(rows, user, w, account);
    Report(w, OverTime(r, Income, p), OverTime(r, Expense, p), ReportByCategory(r), ReportTotals(r), SplitAnt(r), ExpensesByAccount(r))
  }
}
