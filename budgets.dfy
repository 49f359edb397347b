/** `BudgetSerializer`: the period window a budget is measured over, what was spent
    in it, and the derived percentage, remaining amount and alert flags. */
module Budgets {
  import opened Common
  import opened Dates
  import opened Ledger
  import opened Categories
  import Aggregate

  /** `semanal`, `mensual`, `anual`; the column accepts any other code as well. */
  datatype Period = Weekly | Monthly | Annual | UnlistedPeriod(code: string)

  /** A `Budget` row (start and end dates are stored but not used by the figures). */
  datatype Budget = Budget(
    id: nat,
    user: UserId,
    category: CategoryId,
    limit: int,
    period: Period,
    isActive: bool,
    threshold: int)

  /** `get_period_dates`: the week from Monday to Sunday, the calendar month, or,
      for every other period, the calendar year that contains `today`. */
  function PeriodDates(p: Period, today: CalendarDate): (w: (CalendarDate, CalendarDate))
    ensures Le(w.0, today) && Le(today, w.1)
    ensures p == Weekly ==> Weekday(w.0) == 0 && w.1 == AddDays(w.0, 6)
    ensures p == Monthly ==> w.0 == FirstOfMonth(today) && w.1 == LastOfMonth(today)
    ensures p != Weekly && p != Monthly ==>
      w.0 == Date(today.year, 1, 1) && w.1 == Date(today.year, 12, 31)
  {
    if p == Weekly then
      var start := AddDays(today, -Weekday(today));
      WeekStart(today);
      (start, AddDays(start, 6))
    else if p == Monthly then
      var end := AddDays(FirstOfNextMonth(today), -1);
      PrevOfFirst(today);
      LexicographicOrder(FirstOfMonth(today), today);
      LexicographicOrder(today, end);
      (FirstOfMonth(today), end)
    else
      var start: CalendarDate := Date(today.year, 1, 1);
      var end: CalendarDate := Date(today.year, 12, 31);
      LexicographicOrder(start, today);
      LexicographicOrder(today, end);
      (start, end)
  }

  /** `today - timedelta(days=today.weekday())` is the Monday of the week, and the
      Sunday six days later is not before today. */
  lemma WeekStart(today: CalendarDate)
    ensures var start := AddDays(today, -Weekday(today));
      Weekday(start) == 0 && Le(start, today) && Le(today, AddDays(start, 6))
  {
    var o := Ordinal(today);
    var w := Weekday(today);
    assert w == (o + 6) % 7;
    var start := AddDays(today, -w);
    AddDaysOrdinal(today, -w);
    var os := Ordinal(start);
    assert os == o - w;
    WeekArithmetic(o);
    assert (os + 6) % 7 == 0;
    assert Weekday(start) == 0;
    AddDaysOrdinal(start, 6);
    assert Le(start, today);
    assert Le(today, AddDays(start, 6));
  }

  /** Going back by the weekday lands on a multiple of seven days after a Monday. */
  lemma WeekArithmetic(o: int)
    ensures var w := (o + 6) % 7; (o - w + 6) % 7 == 0 && o - w <= o <= o - w + 6
  {
    var x := o + 6;
    assert x - x % 7 == 7 * (x / 7);
  }

  function Amount(e: Entry): int {
    e.amount
  }

  /** The entries `get_spent` sums: the owner's expenses in the budget's category within the window. */
  predicate Counts(e: Entry, b: Budget, w: (CalendarDate, CalendarDate)) {
    e.user == b.user && e.category == Some(b.category) && e.kind == Expense && Le(w.0, e.date) && Le(e.date, w.1)
  }

  /** `get_spent`: an empty sum is 0. */
  function Spent(b: Budget, rows: seq<Entry>, today: CalendarDate): (r: int)
    ensures var w := PeriodDates(b.period, today);
      r == Aggregate.Sum(Aggregate.Filter(rows, (e: Entry) => Counts(e, b, w)), Amount)
  {
    var w := PeriodDates(b.period, today);
    Aggregate.Sum(Aggregate.Filter(rows, (e: Entry) => Counts(e, b, w)), Amount)
  }

  /** `get_percentage`: spent over limit, in percent; 0 when the limit is not positive. */
  function Percentage(limit: int, spent: int): (r: real)
    ensures limit <= 0 ==> r == 0.0
    ensures limit > 0 ==> (r >= 100.0 <==> spent >= limit) && (r < 0.0 <==> spent < 0)
  {
    if limit > 0 then (spent as real / limit as real) * 100.0 else 0.0
  }

  /** `get_is_exceeded`. */
  predicate Exceeded(pct: real) {
    pct >= 100.0
  }

  /** `get_is_warning`: at or over the threshold but not yet exceeded. */
  predicate Warning(pct: real, threshold: int) {
    pct >= threshold as real && pct < 100.0
  }

  /** What the serializer returns for a budget. */
  datatype BudgetData = BudgetData(
    id: nat,
    limit: int,
    spent: int,
    percentage: real,
    remaining: int,
    isExceeded: bool,
    isWarning: bool)

  function Serialize(b: Budget, rows: seq<Entry>, today: CalendarDate): (d: BudgetData)
    ensures d.id == b.id && d.limit == b.limit && d.spent == Spent(b, rows, today)
    ensures d.remaining + d.spent == b.limit
    ensures d.percentage == Percentage(b.limit, d.spent)
    ensures d.isExceeded <==> b.limit > 0 && d.spent >= b.limit
    ensures d.isWarning <==> !d.isExceeded && d.percentage >= b.threshold as real
    ensures !(d.isExceeded && d.isWarning)
  {
    var spent := Spent(b, rows, today);
    var pct := Percentage(b.limit, spent);
    BudgetData(b.id, b.limit, spent, pct, b.limit - spent, Exceeded(pct), Warning(pct, b.threshold))
  }

  /** A budget with a non-positive limit is never exceeded, and warns exactly when its
      threshold is at most 0. */
  lemma NoLimitNoExceed(b: Budget, rows: seq<Entry>, today: CalendarDate)
    requires b.limit <= 0
    ensures !Serialize(b, rows, today).isExceeded
    ensures Serialize(b, rows, today).isWarning <==> b.threshold <= 0
  {
  }

  /** Another user's entries, incomes, transfers, other categories and dates outside
      the window do not count toward what was spent. */
  lemma {:induction false} SpentIgnores(b: Budget, rows: seq<Entry>, e: Entry, today: CalendarDate)
    requires !Counts(e, b, PeriodDates(b.period, today))
    ensures Spent(b, rows + [e], today) == Spent(b, rows, today)
  {
    var w := PeriodDates(b.period, today);
    Aggregate.FilterAppend(rows, [e], (x: Entry) => Counts(x, b, w));
    assert Aggregate.Filter([e], (x: Entry) => Counts(x, b, w)) == [];
    Aggregate.SumAppend(Aggregate.Filter(rows, (x: Entry) => Counts(x, b, w)), [], Amount);
  }

  /** An expense that counts raises what was spent by its amount. */
  lemma {:induction false} SpentCounts(b: Budget, rows: seq<Entry>, e: Entry, today: CalendarDate)
    requires Counts(e, b, PeriodDates(b.period, today))
    ensures Spent(b, rows + [e], today) == Spent(b, rows, today) + e.amount
  {
    var w := PeriodDates(b.period, today);
    Aggregate.FilterAppend(rows, [e], (x: Entry) => Counts(x, b, w));
    assert Aggregate.Filter([e], (x: Entry) => Counts(x, b, w)) == [e];
    Aggregate.SumAppend(Aggregate.Filter(rows, (x: Entry) => Counts(x, b, w)), [e], Amount);
  }

  /** `validate_category`: budgets apply only to expense categories. */
  function ValidateCategory(c: Category): (r: Validated<Category>)
    ensures r.Accepted? <==> c.kind == ExpenseType
    ensures r.Accepted? ==> r.value == c
    ensures r.Rejected? ==> r.field == "category"
  {
    if c.kind != ExpenseType then Rejected("category") else Accepted(c)
  }
}
