/** `GoalSerializer.validate` and `create`: the rules on a goal's category and
    reduction fields, and the baseline computed when none is given. */
module GoalRules {
  import opened Common
  import opened Dates
  import opened Ledger
  import opened Goals
  import Aggregate

  /** The submitted fields; `None` where the client sent nothing.  The reduction
      percentage is kept in hundredths of a percent. */
  datatype GoalAttrs = GoalAttrs(
    goalType: Option<GoalType>,
    category: Option<CategoryId>,
    reductionPct: Option<int>,
    baseline: Option<int>,
    targetDate: Option<CalendarDate>)

  /** `validate`: a reduction goal needs a category and one of a reduction percentage
      or a baseline (zero counts as missing); a savings goal takes no category; other
      goals pass.  Accepted attributes come back unchanged. */
  function ValidateGoal(a: GoalAttrs): (r: Validated<GoalAttrs>)
    ensures r.Accepted? ==> r.value == a
    ensures r == Rejected("category") <==>
      (a.goalType == Some(CategoryReduction) && a.category.None?) || (a.goalType == Some(Savings) && a.category.Some?)
    ensures r == Rejected("reduction_percentage") <==>
      a.goalType == Some(CategoryReduction) && a.category.Some? && !Truthy(a.reductionPct) && !Truthy(a.baseline)
    ensures a.goalType.None? || a.goalType.value.UnlistedGoal? ==> r == Accepted(a)
    ensures r.Accepted? || r == Rejected("category") || r == Rejected("reduction_percentage")
  {
    if a.goalType == Some(CategoryReduction) then
      if a.category.None? then Rejected("category")
      else if !Truthy(a.reductionPct) && !Truthy(a.baseline) then Rejected("reduction_percentage")
      else Accepted(a)
    else if a.goalType == Some(Savings) then
      if a.category.Some? then Rejected("category") else Accepted(a)
    else Accepted(a)
  }

  function Amount(e: Entry): int {
    e.amount
  }

  /** The user's expenses in the category from three months before the end date to the end date. */
  function BaselineFor(rows: seq<Entry>, user: UserId, category: CategoryId, end: CalendarDate): (b: int)
    ensures b == Aggregate.Sum(Aggregate.Filter(rows, (e: Entry) =>
      e.user == user && e.kind == Expense && e.category == Some(category) &&
      Le(MinusMonths(end, 3), e.date) && Le(e.date, end)), Amount)
  {
    Aggregate.Sum(Aggregate.Filter(rows, (e: Entry) =>
      e.user == user && e.kind == Expense && e.category == Some(category) &&
      Le(MinusMonths(end, 3), e.date) && Le(e.date, end)), Amount)
  }

  /** `create`: a reduction goal whose baseline is missing or zero gets the category's
      expenses over the three months up to its target date (today when none is given);
      every other input keeps its baseline. */
  function CreateBaseline(a: GoalAttrs, rows: seq<Entry>, user: UserId, today: CalendarDate): (r: GoalAttrs)
    ensures r == a.(baseline := r.baseline)
    ensures a.goalType == Some(CategoryReduction) && !Truthy(a.baseline) && a.category.Some? ==>
      r.baseline == Some(BaselineFor(rows, user, a.category.value, a.targetDate.GetOr(today)))
    ensures Truthy(a.baseline) || a.goalType != Some(CategoryReduction) || a.category.None? ==> r == a
  {
    if a.goalType == Some(CategoryReduction) && !Truthy(a.baseline) && a.category.Some? then
      a.(baseline := Some(BaselineFor(rows, user, a.category.value, a.targetDate.GetOr(today))))
    else a
  }

  /** Expenses never negative make a non-negative computed baseline. */
  lemma BaselineNonNegative(rows: seq<Entry>, user: UserId, category: CategoryId, end: CalendarDate)
    requires forall e :: e in rows ==> e.amount >= 0
    ensures BaselineFor(rows, user, category, end) >= 0
  {
    var xs := Aggregate.Filter(rows, (e: Entry) =>
      e.user == user && e.kind == Expense && e.category == Some(category) &&
      Le(MinusMonths(end, 3), e.date) && Le(e.date, end));
    Aggregate.SumNonNegative(xs, Amount);
  }

  /** The baseline window covers three calendar months back from the end date. */
  lemma BaselineWindow(end: CalendarDate)
    ensures Le(MinusMonths(end, 3), end)
    ensures MinusMonths(end, 3).day <= end.day
  {
    var s := MinusMonths(end, 3);
    LexicographicOrder(s, end);
  }
}
