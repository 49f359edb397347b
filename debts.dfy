/** Debts and loans: `DebtPayment.save`/`delete` keep a running `paid_amount` and
    an `is_paid` flag on their debt; `remaining_amount` and `progress_percentage`
    are read from those fields. */
module Debts {
  import opened Common
  import opened Dates
  import Aggregate

  /** `deuda` (the user owes) or `prestamo` (the user lent). */
  datatype DebtType = Owed | Lent

  datatype Payment = Payment(id: nat, amount: int, date: CalendarDate)

  function PaymentAmount(p: Payment): int {
    p.amount
  }

  /** A `Debt` row as the read side sees it (name, interest, notes and account left out). */
  datatype DebtRecord = DebtRecord(
    user: UserId,
    debtType: DebtType,
    total: int,
    paid: int,
    isPaid: bool,
    dueDate: Option<CalendarDate>)

  /** `remaining_amount`: what is still to be paid (negative once overpaid). */
  function Remaining(d: DebtRecord): (r: int)
    ensures r + d.paid == d.total
    ensures r <= 0 <==> d.paid >= d.total
  {
    d.total - d.paid
  }

  /** `progress_percentage`: the paid share of the total, in percent; 0 for a
      non-positive total. */
  function Progress(d: DebtRecord): (r: real)
    ensures d.total <= 0 ==> r == 0.0
    ensures d.total > 0 ==> (r >= 100.0 <==> d.paid >= d.total) && (r == 0.0 <==> d.paid == 0)
    ensures d.total > 0 && 0 <= d.paid <= d.total ==> 0.0 <= r <= 100.0
  {
    if d.total > 0 then PercentFacts(d.paid, d.total); (d.paid as real / d.total as real) * 100.0 else 0.0
  }

  /** The debt after a new payment of `amount` was saved: the amount is added and
      the debt becomes paid once the total is reached; saving never clears the flag. */
  function AfterAdd(d: DebtRecord, amount: int): (r: DebtRecord)
    ensures r.paid == d.paid + amount
    ensures r.isPaid <==> d.isPaid || r.paid >= d.total
    ensures r == d.(paid := r.paid, isPaid := r.isPaid)
  {
    var paid := d.paid + amount;
    d.(paid := paid, isPaid := if paid >= d.total then true else d.isPaid)
  }

  /** The debt after a payment of `amount` was deleted: the amount is taken back and
      the debt is no longer paid once below the total; deleting never sets the flag. */
  function AfterDelete(d: DebtRecord, amount: int): (r: DebtRecord)
    ensures r.paid == d.paid - amount
    ensures r.isPaid <==> d.isPaid && r.paid >= d.total
    ensures r == d.(paid := r.paid, isPaid := r.isPaid)
  {
    var paid := d.paid - amount;
    d.(paid := paid, isPaid := if paid < d.total then false else d.isPaid)
  }

  /** The flag agrees with the amounts: paid exactly when the total is reached. */
  predicate Settled(d: DebtRecord) {
    d.isPaid <==> d.paid >= d.total
  }

  /** Saving and then deleting the same payment restores the paid amount; on a debt
      whose flag agrees with its amounts it restores the whole row. */
  lemma AddThenDelete(d: DebtRecord, amount: int)
    ensures AfterDelete(AfterAdd(d, amount), amount).paid == d.paid
    ensures Settled(d) ==> AfterDelete(AfterAdd(d, amount), amount) == d
  {
  }

  /** Without that agreement the flag is not restored: a debt of total 0 that is not
      yet marked paid becomes paid on a payment of 0 and stays paid after its deletion. */
  lemma AddThenDeleteKeepsFlag()
    ensures var d := DebtRecord(0, Owed, 0, 0, false, None);
      AfterDelete(AfterAdd(d, 0), 0) != d
  {
  }

  /** Payments of non-negative amounts keep the flag in agreement with the amounts. */
  lemma SettledPreserved(d: DebtRecord, amount: int)
    requires Settled(d) && amount >= 0
    ensures Settled(AfterAdd(d, amount)) && Settled(AfterDelete(d, amount))
  {
  }

  /** A debt and its payments; `paid_amount` and `is_paid` are read-only to clients
      and change only when a payment is saved or deleted. */
  class Debt {
    const user: UserId
    const debtType: DebtType
    const dueDate: Option<CalendarDate>
    var total: int
    var paid: int
    var isPaid: bool
    var payments: seq<Payment>
    var nextPaymentId: nat

    function Record(): (r: DebtRecord)
      reads this
      ensures r.total == total && r.paid == paid && r.isPaid == isPaid
      ensures r.user == user && r.debtType == debtType && r.dueDate == dueDate
    {
      DebtRecord(user, debtType, total, paid, isPaid, dueDate)
    }

    /** The running total agrees with the payments on record, and ids are fresh. */
    predicate Tracked()
      reads this
    {
      && paid == Aggregate.Sum(payments, PaymentAmount)
      && forall i :: 0 <= i < |payments| ==> payments[i].id < nextPaymentId
    }

    /** A new debt starts with nothing paid and no payments. */
    constructor (user: UserId, debtType: DebtType, total: int, dueDate: Option<CalendarDate>)
      ensures Tracked()
      ensures Record() == DebtRecord(user, debtType, total, 0, false, dueDate)
      ensures payments == []
    {
      this.user := user;
      this.debtType := debtType;
      this.dueDate := dueDate;
      this.total := total;
      paid := 0;
      isPaid := false;
      payments := [];
      nextPaymentId := 0;
    }

    /** `DebtPayment.save` for a new payment: the row is stored, then the debt is updated. */
    method AddPayment(amount: int, date: CalendarDate) returns (p: Payment)
      modifies this
      ensures p.amount == amount && p.date == date && p.id == old(nextPaymentId)
      ensures payments == old(payments) + [p]
      ensures Record() == AfterAdd(old(Record()), amount)
      ensures old(Tracked()) ==> Tracked()
    {
      p := Payment(nextPaymentId, amount, date);
      payments := payments + [p];
      nextPaymentId := nextPaymentId + 1;
      paid := paid + amount;
      if paid >= total {
        isPaid := true;
      }
      Aggregate.SumAppend(old(payments), [p], PaymentAmount);
    }

    /** `DebtPayment.save` for a payment already stored: the row changes, the debt does not. */
    method ResavePayment(i: nat, amount: int, date: CalendarDate)
      requires i < |payments|
      modifies this
      ensures payments == old(payments)[i := Payment(old(payments)[i].id, amount, date)]
      ensures Record() == old(Record()) && nextPaymentId == old(nextPaymentId)
      ensures old(Tracked()) && amount == old(payments)[i].amount ==> Tracked()
    {
      ghost var before := payments;
      payments := payments[i := Payment(payments[i].id, amount, date)];
      SumReplace(before, i, payments[i]);
    }

    /** `DebtPayment.delete`: the debt is updated, then the row is removed. */
    method DeletePayment(i: nat)
      requires i < |payments|
      modifies this
      ensures payments == old(payments)[..i] + old(payments)[i + 1..]
      ensures Record() == AfterDelete(old(Record()), old(payments)[i].amount)
      ensures nextPaymentId == old(nextPaymentId)
      ensures old(Tracked()) ==> Tracked()
    {
      var amount := payments[i].amount;
      paid := paid - amount;
      if paid < total {
        isPaid := false;
      }
      ghost var before := payments;
      payments := payments[..i] + payments[i + 1..];
      SumWithout(before, i);
    }
  }

  /** Taking one payment out of the list takes its amount out of the sum. */
  lemma SumWithout(s: seq<Payment>, i: nat)
    requires i < |s|
    ensures Aggregate.Sum(s[..i] + s[i + 1..], PaymentAmount) == Aggregate.Sum(s, PaymentAmount) - s[i].amount
  {
    var pre, mid, post := s[..i], [s[i]], s[i + 1..];
    assert s == (pre + mid) + post;
    Aggregate.SumAppend(pre + mid, post, PaymentAmount);
    Aggregate.SumAppend(pre, mid, PaymentAmount);
    Aggregate.SumAppend(pre, post, PaymentAmount);
    assert Aggregate.Sum(mid, PaymentAmount) == s[i].amount;
  }

  /** Replacing one payment changes the sum by the difference of the two amounts. */
  lemma SumReplace(s: seq<Payment>, i: nat, p: Payment)
    requires i < |s|
    ensures Aggregate.Sum(s[i := p], PaymentAmount) == Aggregate.Sum(s, PaymentAmount) - s[i].amount + p.amount
  {
    var t := s[i := p];
    assert t[..i] + t[i + 1..] == s[..i] + s[i + 1..];
    SumWithout(s, i);
    SumWithout(t, i);
  }
}
