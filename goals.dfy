/** Goals: the `current_amount`, `progress_percentage`, `is_completed` and
    `days_remaining` properties of a savings or category-reduction goal. */
module Goals {
  import opened Common
  import opened Dates
  import opened Ledger
  import Aggregate

  /** `savings`, `category_reduction`; the column accepts any other code as well. */
  datatype GoalType = Savings | CategoryReduction | UnlistedGoal(code: string)

  /** A `Goal` row (name, description and reduction percentage left out); `created`
      is the date part of `created_at`. */
  datatype Goal = Goal(
    user: UserId,
    goalType: GoalType,
    target: int,
    targetDate: CalendarDate,
    category: Option<CategoryId>,
    baseline: Option<int>,
    created: CalendarDate)

  /** A decimal in a Python condition: missing and zero are both false. */
  predicate Truthy(v: Option<int>) {
    v.Some? && v.value != 0
  }

  /** The measuring window runs from the day the goal was created to today or the
      target date, whichever comes first. */
  function WindowEnd(g: Goal, today: CalendarDate): (r: CalendarDate)
    ensures Le(r, today) && Le(r, g.targetDate) && (r == today || r == g.targetDate)
  {
    Min(today, g.targetDate)
  }

  predicate InWindow(e: Entry, g: Goal, today: CalendarDate) {
    e.user == g.user && Le(g.created, e.date) && Le(e.date, WindowEnd(g, today))
  }

  function Amount(e: Entry): int {
    e.amount
  }

  /** The owner's entries of one kind in the window; an empty sum is 0. */
  function WindowTotal(rows: seq<Entry>, g: Goal, today: CalendarDate, k: Kind): int {
    Aggregate.Sum(Aggregate.Filter(rows, (e: Entry) => InWindow(e, g, today) && e.kind == k), Amount)
  }

  /** The owner's expenses in the goal's category in the window. */
  function CategoryExpenses(rows: seq<Entry>, g: Goal, today: CalendarDate): int {
    Aggregate.Sum(Aggregate.Filter(rows, (e: Entry) => InWindow(e, g, today) && e.kind == Expense && e.category == g.category), Amount)
  }

  /** `current_amount`: net savings over the window for a savings goal; for a
      category-reduction goal with a category and a non-zero baseline, what is left
      of the baseline after the category's expenses; 0 otherwise. */
  function CurrentAmount(rows: seq<Entry>, g: Goal, today: CalendarDate): (r: int)
    ensures g.goalType == Savings ==> r == WindowTotal(rows, g, today, Income) - WindowTotal(rows, g, today, Expense)
    ensures g.goalType == CategoryReduction && g.category.Some? && Truthy(g.baseline) ==>
      r == g.baseline.value - CategoryExpenses(rows, g, today)
    ensures g.goalType.UnlistedGoal? || (g.goalType == CategoryReduction && (g.category.None? || !Truthy(g.baseline))) ==>
      r == 0
  {
    if g.goalType == Savings then WindowTotal(rows, g, today, Income) - WindowTotal(rows, g, today, Expense)
    else if g.goalType == CategoryReduction && g.category.Some? then
      if Truthy(g.baseline) then g.baseline.value - CategoryExpenses(rows, g, today) else 0
    else 0
  }

  /** `min(100, x)`. */
  function Cap(x: real): (r: real)
    ensures r <= 100.0 && r <= x && (r == x || r == 100.0)
  {
    if x < 100.0 then x else 100.0
  }

  /** `progress_percentage` as written, from the goal and its `current_amount`: for a
      category-reduction goal it measures `baseline - current`, which is the
      category's spending rather than the amount saved against the baseline. */
  function ProgressAsWritten(g: Goal, current: int): (r: real)
    ensures r <= 100.0
    ensures g.target <= 0 ==> r == 0.0
    ensures g.target > 0 && g.goalType == CategoryReduction && g.baseline.Some? && g.baseline.value > 0 ==>
      r == Cap(((g.baseline.value - current) as real / g.target as real) * 100.0)
  {
    if g.target <= 0 then 0.0
    else if g.goalType == CategoryReduction then
      if Truthy(g.baseline) && g.baseline.value > 0 then
        Cap(((g.baseline.value - current) as real / g.target as real) * 100.0)
      else 0.0
    else Cap((current as real / g.target as real) * 100.0)
  }

  /** A reduction goal with a baseline of 1000 and a target reduction of 200: spending
      nothing in the category shows no progress, and spending the whole baseline
      completes the goal. */
  lemma ReductionProgressInverted()
    ensures var g := Goal(0, CategoryReduction, 200, Date(2025, 12, 31), Some(1), Some(1000), Date(2025, 1, 1));
      ProgressAsWritten(g, 1000 - 0) == 0.0 && ProgressAsWritten(g, 1000 - 1000) == 100.0
  {
    var g := Goal(0, CategoryReduction, 200, Date(2025, 12, 31), Some(1), Some(1000), Date(2025, 1, 1));
    assert ((1000 - 1000) as real / 200 as real) * 100.0 == 0.0;
    assert ((1000 - 0) as real / 200 as real) * 100.0 == 500.0;
  }

  /** As written, more spending in the category never lowers a reduction goal's progress. */
  lemma ProgressAsWrittenRewardsSpending(g: Goal, spent1: int, spent2: int)
    requires g.target > 0 && g.goalType == CategoryReduction && g.baseline.Some? && g.baseline.value > 0
    requires spent1 <= spent2
    ensures ProgressAsWritten(g, g.baseline.value - spent1) <= ProgressAsWritten(g, g.baseline.value - spent2)
  {
    ScaleMonotone(spent1, spent2, g.target);
  }

  /** `progress_percentage` measuring a reduction goal by what is left of the baseline,
      `current_amount` itself, against the target reduction. */
  function Progress(g: Goal, current: int): (r: real)
    ensures r <= 100.0
    ensures g.target <= 0 ==> r == 0.0
    ensures g.target > 0 && g.goalType != CategoryReduction ==> r == Cap((current as real / g.target as real) * 100.0)
    ensures g.target > 0 && g.goalType == CategoryReduction && g.baseline.Some? && g.baseline.value > 0 ==>
      r == Cap((current as real / g.target as real) * 100.0)
  {
    if g.target <= 0 then 0.0
    else if g.goalType == CategoryReduction then
      if Truthy(g.baseline) && g.baseline.value > 0 then Cap((current as real / g.target as real) * 100.0)
      else 0.0
    else Cap((current as real / g.target as real) * 100.0)
  }

  /** Measured this way, more spending in the category never raises a reduction goal's
      progress, and a goal whose target is within the baseline is complete while nothing
      has been spent. */
  lemma ProgressPenalisesSpending(g: Goal, spent1: int, spent2: int)
    requires g.target > 0 && g.goalType == CategoryReduction && g.baseline.Some? && g.baseline.value > 0
    requires spent1 <= spent2
    ensures Progress(g, g.baseline.value - spent2) <= Progress(g, g.baseline.value - spent1)
    ensures g.target <= g.baseline.value ==> Progress(g, g.baseline.value - 0) == 100.0
  {
    ScaleMonotone(g.baseline.value - spent2, g.baseline.value - spent1, g.target);
    if g.target <= g.baseline.value {
      ScaleMonotone(g.target, g.baseline.value, g.target);
      assert (g.target as real / g.target as real) * 100.0 == 100.0;
    }
  }

  /** The two readings agree for savings goals. */
  lemma SavingsProgressUnchanged(g: Goal, current: int)
    requires g.goalType == Savings
    ensures Progress(g, current) == ProgressAsWritten(g, current)
  {
  }

  lemma ScaleMonotone(a: int, b: int, t: int)
    requires a <= b && t > 0
    ensures (a as real / t as real) * 100.0 <= (b as real / t as real) * 100.0
  {
  }

  /** Capped progress reaches 100 exactly when the amount reaches the target. */
  lemma ScaledReaches(a: int, t: int)
    requires t > 0
    ensures Cap((a as real / t as real) * 100.0) >= 100.0 <==> a >= t
  {
    if a >= t {
      ScaleMonotone(t, a, t);
      assert (t as real / t as real) * 100.0 == 100.0;
    } else {
      ScaleMonotone(a, t, t);
      assert (t as real / t as real) * 100.0 == 100.0;
      assert (a as real / t as real) < 1.0;
    }
  }

  /** `is_completed` as written: the progress as written has reached 100. */
  predicate IsCompletedAsWritten(g: Goal, current: int) {
    ProgressAsWritten(g, current) >= 100.0
  }

  /** `is_completed` over the corrected progress. */
  predicate IsCompleted(g: Goal, current: int) {
    Progress(g, current) >= 100.0
  }

  /** A reduction goal, as written, is complete once the category's spending reaches the
      target reduction; with the corrected progress it is complete once what is left of
      the baseline reaches it. */
  lemma ReductionCompletion(g: Goal, spent: int)
    requires g.target > 0 && g.goalType == CategoryReduction && g.baseline.Some? && g.baseline.value > 0
    ensures IsCompletedAsWritten(g, g.baseline.value - spent) <==> spent >= g.target
    ensures IsCompleted(g, g.baseline.value - spent) <==> g.baseline.value - spent >= g.target
  {
    assert g.baseline.value - (g.baseline.value - spent) == spent;
    ScaledReaches(spent, g.target);
    ScaledReaches(g.baseline.value - spent, g.target);
  }

  /** A savings goal with a positive target is complete exactly when the net savings reach
      it, in both readings. */
  lemma SavingsCompletion(g: Goal, current: int)
    requires g.goalType == Savings && g.target > 0
    ensures IsCompleted(g, current) <==> current >= g.target
    ensures IsCompletedAsWritten(g, current) <==> current >= g.target
  {
    ScaledReaches(current, g.target);
  }

  /** `days_remaining`: days from today to the target date, never negative. */
  function DaysRemaining(g: Goal, today: CalendarDate): (r: nat)
    ensures r == 0 <==> Le(g.targetDate, today)
    ensures r > 0 ==> AddDays(today, r) == g.targetDate
  {
    var remaining := Ordinal(g.targetDate) - Ordinal(today);
    if remaining <= 0 then 0
    else
      AddDaysOrdinal(today, remaining);
      OrdinalInjective(AddDays(today, remaining), g.targetDate);
      remaining
  }
}
