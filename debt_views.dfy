/** `DebtViewSet.summary` and `add_payment`. */
module DebtViews {
  import opened Common
  import opened Dates
  import opened Debts
  import Aggregate

  datatype Totals = Totals(total: int, paid: int, remaining: int)

  datatype DebtSummary = DebtSummary(debts: Totals, loans: Totals)

  function Total(d: DebtRecord): int {
    d.total
  }

  function Paid(d: DebtRecord): int {
    d.paid
  }

  /** The user's unpaid debts of one type. */
  function Open(ds: seq<DebtRecord>, t: DebtType): (r: seq<DebtRecord>)
    ensures forall d :: d in r <==> d in ds && !d.isPaid && d.debtType == t
  {
    Aggregate.Filter(ds, (d: DebtRecord) => !d.isPaid && d.debtType == t)
  }

  /** One group of the summary: sums over the unpaid debts of that type, 0 for none. */
  function TypeTotals(ds: seq<DebtRecord>, t: DebtType): (r: Totals)
    ensures r.total == Aggregate.Sum(Open(ds, t), Total) && r.paid == Aggregate.Sum(Open(ds, t), Paid)
    ensures r.remaining == r.total - r.paid
    ensures Open(ds, t) == [] ==> r == Totals(0, 0, 0)
  {
    var open := Open(ds, t);
    var total := Aggregate.Sum(open, Total);
    var paid := Aggregate.Sum(open, Paid);
    Totals(total, paid, total - paid)
  }

  /** `summary`: what the user owes and what the user is owed, over unpaid debts only. */
  function Summary(ds: seq<DebtRecord>): (r: DebtSummary)
    ensures r.debts == TypeTotals(ds, Owed) && r.loans == TypeTotals(ds, Lent)
  {
    DebtSummary(TypeTotals(ds, Owed), TypeTotals(ds, Lent))
  }

  /** A group's `remaining` is the sum of its debts' own remaining amounts. */
  lemma RemainingIsSumOfRemaining(ds: seq<DebtRecord>, t: DebtType)
    ensures TypeTotals(ds, t).remaining == Aggregate.Sum(Open(ds, t), Remaining)
  {
    Aggregate.SumLinear(Open(ds, t), Total, Paid, Remaining);
  }

  /** A debt already paid, or of the other type, does not move a group's totals. */
  lemma {:induction false} OtherDebtsIgnored(ds: seq<DebtRecord>, x: DebtRecord, t: DebtType)
    requires x.isPaid || x.debtType != t
    ensures TypeTotals(ds + [x], t) == TypeTotals(ds, t)
  {
    Aggregate.FilterAppend(ds, [x], (d: DebtRecord) => !d.isPaid && d.debtType == t);
    assert Open([x], t) == [];
    assert ds + [x] != [];
    assert Open(ds + [x], t) == Open(ds, t);
  }

  /** An unpaid debt of the type adds its total and its paid amount to that group. */
  lemma {:induction false} OpenDebtCounted(ds: seq<DebtRecord>, d: DebtRecord)
    requires !d.isPaid
    ensures TypeTotals(ds + [d], d.debtType).total == TypeTotals(ds, d.debtType).total + d.total
    ensures TypeTotals(ds + [d], d.debtType).paid == TypeTotals(ds, d.debtType).paid + d.paid
  {
    var t := d.debtType;
    Aggregate.FilterAppend(ds, [d], (x: DebtRecord) => !x.isPaid && x.debtType == t);
    assert Open([d], t) == [d];
    Aggregate.SumAppend(Open(ds, t), [d], Total);
    Aggregate.SumAppend(Open(ds, t), [d], Paid);
  }

  /** `add_payment`: the payment serializer needs an amount and a date; without them
      the request is refused and the debt is left as it was. */
  method AddPaymentAction(debt: Debt, amount: Option<int>, date: Option<CalendarDate>) returns (accepted: bool)
    modifies debt
    ensures accepted <==> amount.Some? && date.Some?
    ensures accepted ==> (debt.Record() == AfterAdd(old(debt.Record()), amount.value) &&
      |debt.payments| == |old(debt.payments)| + 1 && debt.payments[..|old(debt.payments)|] == old(debt.payments))
    ensures !accepted ==> debt.Record() == old(debt.Record()) && debt.payments == old(debt.payments)
    ensures old(debt.Tracked()) ==> debt.Tracked()
  {
    if amount.None? || date.None? {
      return false;
    }
    var p := debt.AddPayment(amount.value, date.value);
    accepted := true;
  }
}
