/** `TransactionSerializer.validate` and `create`: the checks a transaction
    passes before it reaches the ledger. */
module TransactionRules {
  import opened Common
  import opened Dates
  import opened Ledger
  import opened Categories

  /** The submitted fields.  On a partial update a field the client did not send is `None`. */
  datatype TxAttrs = TxAttrs(
    kind: Option<Kind>,
    amount: Option<int>,
    date: Option<CalendarDate>,
    account: Option<AccountId>,
    destination: Option<AccountId>,
    category: Option<Category>,
    isRecurring: bool,
    isAntExpense: bool)

  /** The transfer rule: a transfer names a destination different from its source. */
  predicate TransferRejected(a: TxAttrs) {
    a.kind == Some(Transfer) && (a.destination.None? || a.account == a.destination)
  }

  /** The category rule: an income's category is an income category, an expense's an expense category. */
  predicate CategoryRejected(a: TxAttrs) {
    a.category.Some? &&
    ((a.kind == Some(Income) && a.category.value.kind != IncomeType) ||
     (a.kind == Some(Expense) && a.category.value.kind != ExpenseType))
  }

  /** `validate(attrs)`: the transfer checks first, then the category check; accepted
      attributes come back unchanged. */
  function Validate(a: TxAttrs): (r: Validated<TxAttrs>)
    ensures r.Accepted? <==> !TransferRejected(a) && !CategoryRejected(a)
    ensures r.Accepted? ==> r.value == a
    ensures r == Rejected("destination_account") <==> TransferRejected(a)
    ensures r == Rejected("category") <==> !TransferRejected(a) && CategoryRejected(a)
  {
    if a.kind == Some(Transfer) && a.destination.None? then Rejected("destination_account")
    else if a.kind == Some(Transfer) && a.account == a.destination then Rejected("destination_account")
    else if (a.kind == Some(Income) || a.kind == Some(Expense)) && a.category.Some? then
      if a.kind == Some(Income) && a.category.value.kind != IncomeType then Rejected("category")
      else if a.kind == Some(Expense) && a.category.value.kind != ExpenseType then Rejected("category")
      else Accepted(a)
    else Accepted(a)
  }

  /** Transfers and category-less entries never meet the category check. */
  lemma CategoryCheckSkipped(a: TxAttrs)
    requires a.kind == Some(Transfer) || a.category.None?
    ensures Validate(a).Accepted? <==> !TransferRejected(a)
  {
  }

  predicate Complete(a: TxAttrs) {
    a.kind.Some? && a.amount.Some? && a.date.Some? && a.account.Some?
  }

  /** `create(validated_data)`: the row is stamped with the requesting user. */
  function NewEntry(a: TxAttrs, user: UserId): (e: Entry)
    requires Complete(a)
    ensures e.user == user && e.kind == a.kind.value && e.amount == a.amount.value
    ensures e.account == a.account.value && e.destination == a.destination
    ensures e.date == a.date.value && e.category == (if a.category.Some? then Some(a.category.value.id) else None)
    ensures e.isRecurring == a.isRecurring && e.isAntExpense == a.isAntExpense
    ensures e.relatedBet.None?
  {
    Entry(user, a.kind.value, a.amount.value, a.date.value, a.account.value, a.destination,
          if a.category.Some? then Some(a.category.value.id) else None,
          a.isRecurring, a.isAntExpense, None)
  }

  /** An accepted transfer moves money between two different accounts, so it keeps
      the sum of their balances. */
  lemma AcceptedTransferConserves(a: TxAttrs, user: UserId, b: Balances)
    requires Complete(a) && a.kind == Some(Transfer) && Validate(a).Accepted?
    requires Refs(NewEntry(a, user)) <= b.Keys
    ensures var e := NewEntry(a, user);
      e.destination.Some? && e.destination.value != e.account &&
      Apply(b, e)[e.account] + Apply(b, e)[e.destination.value] == b[e.account] + b[e.destination.value]
  {
    TransferConserves(b, NewEntry(a, user));
  }
}
