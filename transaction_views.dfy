/** The read-side actions of the transaction endpoints: `summary`,
    `by_category`, `ant_expenses`, and, for recurring templates, `toggle_active`
    and `upcoming`.  A queryset is a filter over the table; the table is a
    sequence of entries in its default order. */
module TransactionViews {
  import opened Common
  import opened Dates
  import opened Ledger
  import opened Recurring
  import Aggregate

  /** `date_from` / `date_to`: each bound is inclusive and applies only when given. */
  predicate InRange(d: CalendarDate, from: Option<CalendarDate>, to: Option<CalendarDate>) {
    (from.None? || Le(from.value, d)) && (to.None? || Le(d, to.value))
  }

  /** `get_queryset()` narrowed by the optional date bounds. */
  function Window(rows: seq<Entry>, user: UserId, from: Option<CalendarDate>, to: Option<CalendarDate>): (w: seq<Entry>)
    ensures forall e :: e in w <==> e in rows && e.user == user && InRange(e.date, from, to)
  {
    Aggregate.Filter(rows, (e: Entry) => e.user == user && InRange(e.date, from, to))
  }

  function Amount(e: Entry): int {
    e.amount
  }

  /** The sum of the amounts of the entries of one kind. */
  function KindTotal(rows: seq<Entry>, k: Kind): int {
    Aggregate.Sum(Aggregate.Filter(rows, (e: Entry) => e.kind == k), Amount)
  }

  datatype Summary = Summary(income: int, expenses: int, balance: int)

  /** `summary`: income and expense totals of the window (an empty sum is 0) and their difference. */
  function TransactionSummary(rows: seq<Entry>, user: UserId, from: Option<CalendarDate>, to: Option<CalendarDate>): (r: Summary)
    ensures r.income == KindTotal(Window(rows, user, from, to), Income)
    ensures r.expenses == KindTotal(Window(rows, user, from, to), Expense)
    ensures r.balance == r.income - r.expenses
  {
    var w := Window(rows, user, from, to);
    var income := KindTotal(w, Income);
    var expenses := KindTotal(w, Expense);
    Summary(income, expenses, income - expenses)
  }

  /** The effect an entry has on the owner's net worth: incomes add, expenses subtract,
      transfers and unlisted kinds move nothing. */
  function Signed(e: Entry): int {
    match e.kind
    case Income => e.amount
    case Expense => -e.amount
    case _ => 0
  }

  /** The balance of a window is the signed sum of its entries. */
  lemma KindTotalsSigned(w: seq<Entry>)
    ensures KindTotal(w, Income) - KindTotal(w, Expense) == Aggregate.Sum(w, Signed)
  {
    var inc := (e: Entry) => if e.kind == Income then e.amount else 0;
    var exp := (e: Entry) => if e.kind == Expense then e.amount else 0;
    Aggregate.SumFilterMasked(w, (e: Entry) => e.kind == Income, Amount, inc);
    Aggregate.SumFilterMasked(w, (e: Entry) => e.kind == Expense, Amount, exp);
    Aggregate.SumLinear(w, inc, exp, Signed);
  }

  lemma SummaryBalanceSigned(rows: seq<Entry>, user: UserId, from: Option<CalendarDate>, to: Option<CalendarDate>)
    ensures TransactionSummary(rows, user, from, to).balance == Aggregate.Sum(Window(rows, user, from, to), Signed)
  {
    KindTotalsSigned(Window(rows, user, from, to));
  }

  /** Recording a transfer (or an entry of an unlisted kind) leaves the summary as it was. */
  lemma SummaryIgnoresTransfers(rows: seq<Entry>, e: Entry, user: UserId, from: Option<CalendarDate>, to: Option<CalendarDate>)
    requires e.kind != Income && e.kind != Expense
    ensures TransactionSummary(rows + [e], user, from, to) == TransactionSummary(rows, user, from, to)
  {
    var p := (x: Entry) => x.user == user && InRange(x.date, from, to);
    Aggregate.FilterAppend(rows, [e], p);
    var w := Window(rows, user, from, to);
    var tail := Aggregate.Filter([e], p);
    assert Window(rows + [e], user, from, to) == w + tail;
    assert tail == [] || tail == [e];
    Aggregate.FilterAppend(w, tail, (x: Entry) => x.kind == Income);
    Aggregate.FilterAppend(w, tail, (x: Entry) => x.kind == Expense);
    Aggregate.FilterNone(tail, (x: Entry) => x.kind == Income);
    Aggregate.FilterNone(tail, (x: Entry) => x.kind == Expense);
    assert Aggregate.Filter(w, (x: Entry) => x.kind == Income) + [] == Aggregate.Filter(w, (x: Entry) => x.kind == Income);
    assert Aggregate.Filter(w, (x: Entry) => x.kind == Expense) + [] == Aggregate.Filter(w, (x: Entry) => x.kind == Expense);
  }

  /** `by_category`: the window's expenses grouped by category (no category is a group
      of its own), each with its total, largest total first. */
  function ByCategory(rows: seq<Entry>, user: UserId, from: Option<CalendarDate>, to: Option<CalendarDate>): (r: seq<(Option<CategoryId>, int)>)
    ensures Aggregate.SortedDesc(r)
    ensures forall row :: row in r ==>
      row.1 == Aggregate.KeyTotal(Expenses(Window(rows, user, from, to)), CategoryOf, Amount, row.0)
    ensures forall e :: e in Expenses(Window(rows, user, from, to)) ==>
      exists row :: row in r && row.0 == e.category
    ensures forall row :: row in r ==>
      exists e :: e in Expenses(Window(rows, user, from, to)) && e.category == row.0
  {
    var xs := Expenses(Window(rows, user, from, to));
    Aggregate.GroupByTotalDescRows(xs, CategoryOf, Amount);
    Aggregate.GroupByTotalDesc(xs, CategoryOf, Amount)
  }

  function CategoryOf(e: Entry): Option<CategoryId> {
    e.category
  }

  function Expenses(w: seq<Entry>): (r: seq<Entry>)
    ensures forall e :: e in r <==> e in w && e.kind == Expense
  {
    Aggregate.Filter(w, (e: Entry) => e.kind == Expense)
  }

  // ---------------------------------------------------------------------
  // ant_expenses

  /** The two windows of `ant_expenses`: this month up to today, and the whole previous month. */
  function CurrentMonthStart(today: CalendarDate): CalendarDate {
    FirstOfMonth(today)
  }

  function PreviousMonthStart(today: CalendarDate): CalendarDate {
    MinusMonths(FirstOfMonth(today), 1)
  }

  function PreviousMonthEnd(today: CalendarDate): CalendarDate {
    AddDays(FirstOfMonth(today), -1)
  }

  /** The previous window is exactly the calendar month before today's, and it ends
      the day before the current window starts. */
  lemma AntWindows(today: CalendarDate)
    ensures CurrentMonthStart(today).day == 1 && CurrentMonthStart(today).month == today.month &&
      CurrentMonthStart(today).year == today.year && Le(CurrentMonthStart(today), today)
    ensures var s := PreviousMonthStart(today);
      s.day == 1 &&
      s.month == (if today.month == 1 then 12 else today.month - 1) &&
      s.year == (if today.month == 1 then today.year - 1 else today.year) &&
      PreviousMonthEnd(today) == LastOfMonth(s)
    ensures Ordinal(PreviousMonthEnd(today)) + 1 == Ordinal(CurrentMonthStart(today))
  {
    var first := FirstOfMonth(today);
    MinusOneMonth(first);
    PrevOfFirst(today);
    MinusOneMonth(today);
    assert LastOfMonth(MinusMonths(first, 1)) == LastOfMonth(MinusMonths(today, 1));
    AddDaysOrdinal(first, -1);
    if first != today {
      LexicographicOrder(first, today);
    }
  }

  predicate IsAnt(e: Entry, user: UserId) {
    e.user == user && e.isAntExpense && e.kind == Expense
  }

  function AntIn(rows: seq<Entry>, user: UserId, from: CalendarDate, to: CalendarDate): (r: seq<Entry>)
    ensures forall e :: e in r <==> e in rows && IsAnt(e, user) && Le(from, e.date) && Le(e.date, to)
  {
    Aggregate.Filter(rows, (e: Entry) => IsAnt(e, user) && Le(from, e.date) && Le(e.date, to))
  }

  function LatestFirst(e: Entry): int {
    -Ordinal(e.date)
  }

  /** The five latest of `s` by date: as many as there are, up to five, drawn from `s`,
      latest first, and no entry left out is later than one taken. */
  lemma LatestFive(s: seq<Entry>)
    ensures var r := Aggregate.Take(Aggregate.SortBy(s, LatestFirst), 5);
      |r| == (if |s| <= 5 then |s| else 5) &&
      multiset(r) <= multiset(s) &&
      (forall e :: e in s && e !in r ==> forall k :: 0 <= k < |r| ==> Le(e.date, r[k].date)) &&
      forall i, j :: 0 <= i < j < |r| ==> Le(r[j].date, r[i].date)
  {
    var r := Aggregate.Take(Aggregate.SortBy(s, LatestFirst), 5);
    Aggregate.TakeSortBy(s, LatestFirst, 5);
    Aggregate.TakeSortByFirst(s, LatestFirst, 5);
    forall e | e in s && e !in r
      ensures forall k :: 0 <= k < |r| ==> Le(e.date, r[k].date)
    {
      assert forall k :: 0 <= k < |r| ==> LatestFirst(r[k]) <= LatestFirst(e);
    }
    forall i, j | 0 <= i < j < |r|
      ensures Le(r[j].date, r[i].date)
    {
      assert LatestFirst(r[i]) <= LatestFirst(r[j]);
    }
  }

  datatype AntReport = AntReport(currentTotal: int, currentCount: nat, previousTotal: int, recent: seq<Entry>)

  /** `ant_expenses`: this month's ant expenses (total, count and the five latest by
      date) and last month's total. */
  function AntExpenses(rows: seq<Entry>, user: UserId, today: CalendarDate): (r: AntReport)
    ensures var current := AntIn(rows, user, CurrentMonthStart(today), today);
      r.currentTotal == Aggregate.Sum(current, Amount) && r.currentCount == |current| &&
      r.previousTotal == Aggregate.Sum(AntIn(rows, user, PreviousMonthStart(today), PreviousMonthEnd(today)), Amount)
    ensures var current := AntIn(rows, user, CurrentMonthStart(today), today);
      |r.recent| == (if |current| <= 5 then |current| else 5) &&
      multiset(r.recent) <= multiset(current) &&
      (forall e :: e in current && e !in r.recent ==> forall k :: 0 <= k < |r.recent| ==> Le(e.date, r.recent[k].date))
    ensures forall i, j :: 0 <= i < j < |r.recent| ==> Le(r.recent[j].date, r.recent[i].date)
  {
    var current := AntIn(rows, user, CurrentMonthStart(today), today);
    var previous := AntIn(rows, user, PreviousMonthStart(today), PreviousMonthEnd(today));
    var recent := Aggregate.Take(Aggregate.SortBy(current, LatestFirst), 5);
    LatestFive(current);
    AntReport(Aggregate.Sum(current, Amount), |current|, Aggregate.Sum(previous, Amount), recent)
  }

  // ---------------------------------------------------------------------
  // Recurring templates

  /** `toggle_active` on one template: the flag flips and nothing else changes. */
  function Toggled(t: Template): (r: Template)
    ensures r.isActive == !t.isActive
    ensures r.(isActive := t.isActive) == t
  {
    t.(isActive := !t.isActive)
  }

  /** Toggling twice restores the template. */
  lemma ToggleTwice(t: Template)
    ensures Toggled(Toggled(t)) == t
  {
  }

  /** `toggle_active` on the row at index `i` of the templates table. */
  method ToggleActive(templates: array<Template>, i: nat)
    requires i < templates.Length
    modifies templates
    ensures templates[i] == Toggled(old(templates[i]))
    ensures forall k :: 0 <= k < templates.Length && k != i ==> templates[k] == old(templates[k])
  {
    var instance := templates[i];
    templates[i] := instance.(isActive := !instance.isActive);
  }

  function NextRank(t: Template): int {
    Ordinal(t.nextExecution)
  }

  /** The templates `upcoming` chooses from: the user's active ones not yet past. */
  function UpcomingCandidates(ts: seq<Template>, user: UserId, today: CalendarDate): (r: seq<Template>)
    ensures forall t :: t in r <==> t in ts && t.user == user && t.isActive && Le(today, t.nextExecution)
  {
    Aggregate.Filter(ts, (t: Template) => t.user == user && t.isActive && Le(today, t.nextExecution))
  }

  /** `upcoming`: the candidates ordered by next run, at most ten. */
  function Upcoming(ts: seq<Template>, user: UserId, today: CalendarDate): (r: seq<Template>)
    ensures |r| <= 10
    ensures forall t :: t in r ==> t in UpcomingCandidates(ts, user, today)
    ensures forall i, j :: 0 <= i < j < |r| ==> Le(r[i].nextExecution, r[j].nextExecution)
  {
    Aggregate.TakeSortBy(UpcomingCandidates(ts, user, today), NextRank, 10);
    Aggregate.Take(Aggregate.SortBy(UpcomingCandidates(ts, user, today), NextRank), 10)
  }

  /** No candidate is left out in favour of a later one: every candidate missing from
      the list runs no earlier than every template listed, and with ten or fewer
      candidates all of them are listed. */
  lemma UpcomingIsEarliest(ts: seq<Template>, user: UserId, today: CalendarDate, t: Template)
    requires t in UpcomingCandidates(ts, user, today)
    ensures var r := Upcoming(ts, user, today);
      t in r || (|r| == 10 && forall k :: 0 <= k < |r| ==> Le(r[k].nextExecution, t.nextExecution))
  {
    var candidates := UpcomingCandidates(ts, user, today);
    Aggregate.TakeSortByEarliest(candidates, NextRank, 10, t);
  }
}
