/** The ledger mutator of `Transaction.save` / `Transaction.delete`: every
    transaction row applies its balance effect to its account (and, for a
    transfer, its destination account) when it is created, reverses the stored
    row's effect and applies the new one when it is edited, and reverses its
    effect when it is deleted.  Amounts are Decimal(15, 2), held here as cents. */
module Ledger {
  import opened Common
  import opened Dates
  import Aggregate

  /** `Transaction.transaction_type`.  The column is a CharField with choices that
      `save` never checks, so a value outside the three kinds can be stored. */
  datatype Kind =
    | Income              // 'ingreso'
    | Expense             // 'gasto'
    | Transfer            // 'transferencia'
    | Unlisted(code: string)

  /** A `Transaction` row (description and notes left out). */
  datatype Entry = Entry(
    user: UserId,
    kind: Kind,
    amount: int,
    date: CalendarDate,
    account: AccountId,
    destination: Option<AccountId>,
    category: Option<CategoryId>,
    isRecurring: bool,
    isAntExpense: bool,
    relatedBet: Option<BetId>)

  /** The `balance` column of the accounts table, by account id. */
  type Balances = map<AccountId, int>

  /** The accounts an entry refers to (its foreign keys). */
  function Refs(e: Entry): set<AccountId> {
    {e.account} + (if e.destination.Some? then {e.destination.value} else {})
  }

  /** The accounts whose balance the entry's effect writes. */
  function Touched(e: Entry): (t: set<AccountId>)
    ensures t <= Refs(e)
  {
    match e.kind
    case Income => {e.account}
    case Expense => {e.account}
    case Transfer => Refs(e)
    case Unlisted(_) => {}
  }

  /** The effect table: how much applying `e` adds to account `a`.  A transfer whose
      destination is its own account ends with the destination's write, so it credits
      that account (see `Apply`). */
  function Delta(e: Entry, a: AccountId): int {
    match e.kind
    case Income => if a == e.account then e.amount else 0
    case Expense => if a == e.account then -e.amount else 0
    case Transfer =>
      if e.destination == Some(a) then e.amount
      else if a == e.account then -e.amount
      else 0
    case Unlisted(_) => 0
  }

  /** `_apply_transaction`, as the sequence of balance writes it performs.  `account` and
      `destination_account` are two model instances, each holding the balance read when
      the row's accounts were loaded (by the serializer's related fields, or by
      `select_related`): the destination is written from its own copy, read before the debit. */
  function Apply(b: Balances, e: Entry): (r: Balances)
    requires Refs(e) <= b.Keys
    ensures r.Keys == b.Keys
  {
    match e.kind
    case Income => b[e.account := b[e.account] + e.amount]
    case Expense => b[e.account := b[e.account] - e.amount]
    case Transfer =>
      var debited := b[e.account := b[e.account] - e.amount];
      if e.destination.Some? then debited[e.destination.value := b[e.destination.value] + e.amount]
      else debited
    case Unlisted(_) => b
  }

  /** `_reverse_transaction(instance)`, as the sequence of balance writes it performs on
      the two separately loaded account instances. */
  function Reverse(b: Balances, e: Entry): (r: Balances)
    requires Refs(e) <= b.Keys
    ensures r.Keys == b.Keys
  {
    match e.kind
    case Income => b[e.account := b[e.account] - e.amount]
    case Expense => b[e.account := b[e.account] + e.amount]
    case Transfer =>
      var credited := b[e.account := b[e.account] + e.amount];
      if e.destination.Some? then credited[e.destination.value := b[e.destination.value] - e.amount]
      else credited
    case Unlisted(_) => b
  }

  // ---------------------------------------------------------------------
  // What applying and reversing do to each account

  /** Applying adds the effect table's amount to every account, and leaves
      every account the entry does not touch as it was. */
  lemma ApplyEffect(b: Balances, e: Entry)
    requires Refs(e) <= b.Keys
    ensures forall a :: a in b ==> Apply(b, e)[a] == b[a] + Delta(e, a)
    ensures forall a :: a in b && a !in Touched(e) ==> Apply(b, e)[a] == b[a]
  {
  }

  /** Reversing subtracts the effect table's amount from every account. */
  lemma ReverseEffect(b: Balances, e: Entry)
    requires Refs(e) <= b.Keys
    ensures forall a :: a in b ==> Reverse(b, e)[a] == b[a] - Delta(e, a)
    ensures forall a :: a in b && a !in Touched(e) ==> Reverse(b, e)[a] == b[a]
  {
  }

  /** `_reverse_transaction` is the exact inverse of `_apply_transaction`, for every kind:
      create-then-delete restores every balance, and so does delete-then-recreate. */
  lemma ReverseUndoesApply(b: Balances, e: Entry)
    requires Refs(e) <= b.Keys
    ensures Reverse(Apply(b, e), e) == b
    ensures Apply(Reverse(b, e), e) == b
  {
    ReverseAfterApply(b, e);
    ApplyAfterReverse(b, e);
  }

  lemma ReverseAfterApply(b: Balances, e: Entry)
    requires Refs(e) <= b.Keys
    ensures Reverse(Apply(b, e), e) == b
  {
    var m := Reverse(Apply(b, e), e);
    ApplyEffect(b, e);
    ReverseEffect(Apply(b, e), e);
    assert m.Keys == b.Keys;
    assert forall a :: a in b ==> m[a] == b[a];
  }

  lemma ApplyAfterReverse(b: Balances, e: Entry)
    requires Refs(e) <= b.Keys
    ensures Apply(Reverse(b, e), e) == b
  {
    var m := Apply(Reverse(b, e), e);
    ReverseEffect(b, e);
    ApplyEffect(Reverse(b, e), e);
    assert m.Keys == b.Keys;
    assert forall a :: a in b ==> m[a] == b[a];
  }

  /** An income adds its amount to its account and changes nothing else. */
  lemma IncomeAdds(b: Balances, e: Entry)
    requires Refs(e) <= b.Keys && e.kind == Income
    ensures Apply(b, e) == b[e.account := b[e.account] + e.amount]
  {
  }

  /** An expense subtracts its amount from its account and changes nothing else. */
  lemma ExpenseSubtracts(b: Balances, e: Entry)
    requires Refs(e) <= b.Keys && e.kind == Expense
    ensures Apply(b, e) == b[e.account := b[e.account] - e.amount]
  {
  }

  /** A transfer with a destination moves its amount from the source to the destination:
      the sum of the two balances does not change. */
  lemma TransferConserves(b: Balances, e: Entry)
    requires Refs(e) <= b.Keys && e.kind == Transfer && e.destination.Some?
    requires e.destination.value != e.account
    ensures Apply(b, e)[e.account] == b[e.account] - e.amount
    ensures Apply(b, e)[e.destination.value] == b[e.destination.value] + e.amount
    ensures Apply(b, e)[e.account] + Apply(b, e)[e.destination.value] == b[e.account] + b[e.destination.value]
  {
  }

  /** A transfer whose destination is its own account: the debit is saved first, then
      overwritten by the destination copy, so applying credits the account by the amount
      and reversing debits it. */
  lemma SelfTransferCredits(b: Balances, e: Entry)
    requires Refs(e) <= b.Keys && e.kind == Transfer && e.destination == Some(e.account)
    ensures Apply(b, e) == b[e.account := b[e.account] + e.amount]
    ensures Reverse(b, e) == b[e.account := b[e.account] - e.amount]
  {
  }

  /** A transfer without a destination only debits its source. */
  lemma TransferWithoutDestination(b: Balances, e: Entry)
    requires Refs(e) <= b.Keys && e.kind == Transfer && e.destination.None?
    ensures Apply(b, e) == b[e.account := b[e.account] - e.amount]
  {
  }

  /** A type outside the three kinds falls through the `elif` chain: no balance changes. */
  lemma UnlistedKindInert(b: Balances, e: Entry)
    requires Refs(e) <= b.Keys && e.kind.Unlisted?
    ensures Apply(b, e) == b && Reverse(b, e) == b
  {
  }

  /** Two entries' effects commute, so the balances do not depend on the order
      in which rows were created. */
  lemma ApplyCommutes(b: Balances, e1: Entry, e2: Entry)
    requires Refs(e1) <= b.Keys && Refs(e2) <= b.Keys
    ensures Apply(Apply(b, e1), e2) == Apply(Apply(b, e2), e1)
  {
    var x := Apply(Apply(b, e1), e2);
    var y := Apply(Apply(b, e2), e1);
    forall a | a in b
      ensures x[a] == y[a]
    {
      ApplyEffect(b, e1);
      ApplyEffect(Apply(b, e1), e2);
      ApplyEffect(b, e2);
      ApplyEffect(Apply(b, e2), e1);
    }
    assert x.Keys == y.Keys;
  }

  /** An edit (reverse the stored row, apply the new one) moves every balance by
      the new effect minus the old one. */
  lemma EditEffect(b: Balances, oldEntry: Entry, newEntry: Entry)
    requires Refs(oldEntry) <= b.Keys && Refs(newEntry) <= b.Keys
    ensures forall a :: a in b ==>
      Apply(Reverse(b, oldEntry), newEntry)[a] == b[a] - Delta(oldEntry, a) + Delta(newEntry, a)
  {
    ReverseEffect(b, oldEntry);
    ApplyEffect(Reverse(b, oldEntry), newEntry);
  }

  predicate AllRefsIn(es: seq<Entry>, keys: set<AccountId>) {
    forall i :: 0 <= i < |es| ==> Refs(es[i]) <= keys
  }

  /** The balances after applying a sequence of entries in order. */
  function ApplyAll(b: Balances, es: seq<Entry>): (r: Balances)
    requires AllRefsIn(es, b.Keys)
    ensures r.Keys == b.Keys
  {
    if es == [] then b else Apply(ApplyAll(b, es[..|es| - 1]), es[|es| - 1])
  }

  lemma ApplyAllSnoc(b: Balances, es: seq<Entry>, e: Entry)
    requires AllRefsIn(es, b.Keys) && Refs(e) <= b.Keys
    ensures AllRefsIn(es + [e], b.Keys)
    ensures ApplyAll(b, es + [e]) == Apply(ApplyAll(b, es), e)
  {
    assert (es + [e])[..|es|] == es;
  }

  /** Applying a sequence of entries adds the sum of their effects to every account. */
  lemma {:induction false} ApplyAllEffect(b: Balances, es: seq<Entry>, a: AccountId)
    requires AllRefsIn(es, b.Keys) && a in b
    ensures ApplyAll(b, es)[a] == b[a] + Aggregate.Sum(es, (e: Entry) => Delta(e, a))
  {
    if es != [] {
      var init, last := es[..|es| - 1], es[|es| - 1];
      var f := (e: Entry) => Delta(e, a);
      assert AllRefsIn(init, b.Keys) by {
        forall i | 0 <= i < |init| ensures Refs(init[i]) <= b.Keys {
          assert init[i] == es[i];
        }
      }
      ApplyAllEffect(b, init, a);
      var before := ApplyAll(b, init);
      assert ApplyAll(b, es) == Apply(before, last);
      ApplyEffect(before, last);
      assert es == init + [last];
      Aggregate.SumAppend(init, [last], f);
      assert Aggregate.Sum([last], f) == Delta(last, a);
    }
  }

  // ---------------------------------------------------------------------
  // The transactions table and the cumulative effect of its rows

  datatype Row = Row(id: TxId, entry: Entry)

  /** The net effect on account `a` of every row of the table. */
  function NetEffect(rows: seq<Row>, a: AccountId): int {
    Aggregate.Sum(rows, (r: Row) => Delta(r.entry, a))
  }

  function IndexOf(rows: seq<Row>, id: TxId): (i: int)
    ensures -1 <= i < |rows|
    ensures 0 <= i ==> rows[i].id == id
    ensures i < 0 ==> forall k :: 0 <= k < |rows| ==> rows[k].id != id
  {
    if rows == [] then -1
    else if rows[|rows| - 1].id == id then |rows| - 1
    else IndexOf(rows[..|rows| - 1], id)
  }

  predicate UniqueIds(rows: seq<Row>) {
    forall i, j :: 0 <= i < j < |rows| ==> rows[i].id != rows[j].id
  }

  lemma NetAppend(rows: seq<Row>, r: Row, a: AccountId)
    ensures NetEffect(rows + [r], a) == NetEffect(rows, a) + Delta(r.entry, a)
  {
    Aggregate.SumAppend(rows, [r], (x: Row) => Delta(x.entry, a));
  }

  lemma NetReplace(rows: seq<Row>, i: nat, r: Row, a: AccountId)
    requires i < |rows|
    ensures NetEffect(rows[i := r], a) == NetEffect(rows, a) - Delta(rows[i].entry, a) + Delta(r.entry, a)
  {
    var f := (x: Row) => Delta(x.entry, a);
    assert rows == rows[..i] + [rows[i]] + rows[i + 1..];
    assert rows[i := r] == rows[..i] + [r] + rows[i + 1..];
    Aggregate.SumAppend(rows[..i] + [rows[i]], rows[i + 1..], f);
    Aggregate.SumAppend(rows[..i], [rows[i]], f);
    Aggregate.SumAppend(rows[..i] + [r], rows[i + 1..], f);
    Aggregate.SumAppend(rows[..i], [r], f);
  }

  lemma NetRemove(rows: seq<Row>, i: nat, a: AccountId)
    requires i < |rows|
    ensures NetEffect(rows[..i] + rows[i + 1..], a) == NetEffect(rows, a) - Delta(rows[i].entry, a)
  {
    var f := (x: Row) => Delta(x.entry, a);
    assert rows == rows[..i] + [rows[i]] + rows[i + 1..];
    Aggregate.SumAppend(rows[..i] + [rows[i]], rows[i + 1..], f);
    Aggregate.SumAppend(rows[..i], [rows[i]], f);
    Aggregate.SumAppend(rows[..i], rows[i + 1..], f);
  }

  /** The rows a bet generated (`Transaction.objects.filter(related_bet=bet)`). */
  function BetRows(rows: seq<Row>, bet: BetId): seq<Row> {
    Aggregate.Filter(rows, (r: Row) => r.entry.relatedBet == Some(bet))
  }

  /** The rows a bulk delete of a bet's transactions leaves behind. */
  function WithoutBetRows(rows: seq<Row>, bet: BetId): seq<Row> {
    Aggregate.Filter(rows, (r: Row) => r.entry.relatedBet != Some(bet))
  }

  /** Removing a bet's rows takes their effect out of the table's net effect. */
  lemma NetWithoutBetRows(rows: seq<Row>, bet: BetId, a: AccountId)
    ensures NetEffect(WithoutBetRows(rows, bet), a) == NetEffect(rows, a) - NetEffect(BetRows(rows, bet), a)
  {
    Aggregate.SumPartition(rows, (r: Row) => true,
      (r: Row) => r.entry.relatedBet == Some(bet), (r: Row) => r.entry.relatedBet != Some(bet),
      (x: Row) => Delta(x.entry, a));
    Aggregate.FilterSame(rows, (r: Row) => true, (r: Row) => true);
    AllRows(rows);
  }

  lemma {:induction false} AllRows(rows: seq<Row>)
    ensures Aggregate.Filter(rows, (r: Row) => true) == rows
  {
    if rows != [] {
      AllRows(rows[1..]);
    }
  }

  lemma {:induction false} FilterKeepsUnique(rows: seq<Row>, p: Row -> bool)
    requires UniqueIds(rows)
    ensures UniqueIds(Aggregate.Filter(rows, p))
  {
    if rows != [] {
      FilterKeepsUnique(rows[1..], p);
      var rest := Aggregate.Filter(rows[1..], p);
      assert forall k :: 0 <= k < |rest| ==> rest[k] in rows[1..];
    }
  }

  /** The entries of a table's rows, in order. */
  function EntriesOf(rows: seq<Row>): (es: seq<Entry>)
    ensures |es| == |rows| && forall i :: 0 <= i < |rows| ==> es[i] == rows[i].entry
  {
    seq(|rows|, i requires 0 <= i < |rows| => rows[i].entry)
  }

  /** Appending a row under the next free id keeps the ids unique and below the next id. */
  lemma AppendFresh(rows: seq<Row>, nextId: TxId, keys: set<AccountId>, e: Entry)
    requires UniqueIds(rows) && Refs(e) <= keys
    requires forall i :: 0 <= i < |rows| ==> rows[i].id < nextId && Refs(rows[i].entry) <= keys
    ensures IndexOf(rows, nextId) < 0
    ensures UniqueIds(rows + [Row(nextId, e)])
    ensures forall i :: 0 <= i < |rows + [Row(nextId, e)]| ==>
      (rows + [Row(nextId, e)])[i].id < nextId + 1 && Refs((rows + [Row(nextId, e)])[i].entry) <= keys
  {
  }

  /** Applying an appended row's effect keeps every balance equal to its opening
      balance plus the net effect of the rows. */
  lemma ConsistentAfterAppend(opening: Balances, b: Balances, rows: seq<Row>, r: Row)
    requires Refs(r.entry) <= b.Keys
    requires forall a :: a in b ==> a in opening && b[a] == opening[a] + NetEffect(rows, a)
    ensures forall a :: a in Apply(b, r.entry) ==>
      Apply(b, r.entry)[a] == opening[a] + NetEffect(rows + [r], a)
  {
    ApplyEffect(b, r.entry);
    forall a | a in b
      ensures NetEffect(rows + [r], a) == NetEffect(rows, a) + Delta(r.entry, a)
    {
      NetAppend(rows, r, a);
    }
  }

  /** The accounts table and the transactions table, updated as `save`/`delete` update them. */
  class Ledger {
    var balances: Balances
    var rows: seq<Row>
    var nextId: TxId
    /** Each account's balance before the effect of the current rows: the
        balance it was opened with or last set to by `set_initial_balance`. */
    ghost var opening: Balances

    ghost predicate Valid()
      reads this
    {
      && opening.Keys == balances.Keys
      && UniqueIds(rows)
      && (forall i :: 0 <= i < |rows| ==> rows[i].id < nextId && Refs(rows[i].entry) <= balances.Keys)
    }

    /** Every balance is its opening balance plus the net effect of every live row. */
    ghost predicate Consistent()
      reads this
    {
      && opening.Keys == balances.Keys
      && forall a :: a in balances ==> balances[a] == opening[a] + NetEffect(rows, a)
    }

    function Entries(): (es: seq<Entry>)
      reads this
      ensures |es| == |rows| && forall i :: 0 <= i < |rows| ==> es[i] == rows[i].entry
    {
      EntriesOf(rows)
    }

    predicate HasRow(id: TxId)
      reads this
    {
      IndexOf(rows, id) >= 0
    }

    constructor (accounts: Balances)
      ensures Valid() && Consistent()
      ensures balances == accounts && rows == [] && opening == accounts
    {
      balances := accounts;
      rows := [];
      nextId := 0;
      opening := accounts;
    }

    /** `_apply_transaction`: each branch writes the account, then the destination from
        the balance its own instance was loaded with. */
    method ApplyTransaction(e: Entry)
      requires Refs(e) <= balances.Keys
      modifies this`balances
      ensures balances == Apply(old(balances), e)
    {
      match e.kind {
        case Income =>
          balances := balances[e.account := balances[e.account] + e.amount];
        case Expense =>
          balances := balances[e.account := balances[e.account] - e.amount];
        case Transfer =>
          var destinationCopy := if e.destination.Some? then balances[e.destination.value] else 0;
          balances := balances[e.account := balances[e.account] - e.amount];
          if e.destination.Some? {
            balances := balances[e.destination.value := destinationCopy + e.amount];
          }
        case Unlisted(_) =>
      }
    }

    /** `_reverse_transaction(instance)`. */
    method ReverseTransaction(e: Entry)
      requires Refs(e) <= balances.Keys
      modifies this`balances
      ensures balances == Reverse(old(balances), e)
    {
      match e.kind {
        case Income =>
          balances := balances[e.account := balances[e.account] - e.amount];
        case Expense =>
          balances := balances[e.account := balances[e.account] + e.amount];
        case Transfer =>
          var destinationCopy := if e.destination.Some? then balances[e.destination.value] else 0;
          balances := balances[e.account := balances[e.account] + e.amount];
          if e.destination.Some? {
            balances := balances[e.destination.value := destinationCopy - e.amount];
          }
        case Unlisted(_) =>
      }
    }

    /** `save` of a new row: insert it, then apply its effect. */
    method Create(e: Entry) returns (id: TxId)
      requires Valid() && Refs(e) <= balances.Keys
      modifies this
      ensures Valid() && opening == old(opening)
      ensures id == old(nextId) && !old(HasRow(id))
      ensures rows == old(rows) + [Row(id, e)] && Entries() == old(Entries()) + [e]
      ensures balances == Apply(old(balances), e)
      ensures old(Consistent()) ==> Consistent()
    {
      id := nextId;
      AppendFresh(rows, nextId, balances.Keys, e);
      if Consistent() {
        ConsistentAfterAppend(opening, balances, rows, Row(id, e));
      }
      rows := rows + [Row(id, e)];
      assert Entries() == old(Entries()) + [e];
      nextId := nextId + 1;
      ApplyTransaction(e);
    }

    /** `save` of an existing row: store the new fields, reverse the stored
        row's effect, then apply the new row's effect. */
    method Update(id: TxId, e: Entry)
      requires Valid() && HasRow(id) && Refs(e) <= balances.Keys
      modifies this
      ensures Valid() && opening == old(opening) && nextId == old(nextId)
      ensures var i := IndexOf(old(rows), id);
        rows == old(rows)[i := Row(id, e)] &&
        balances == Apply(Reverse(old(balances), old(rows)[i].entry), e)
      ensures old(Consistent()) ==> Consistent()
    {
      var i := IndexOf(rows, id);
      var stored := rows[i].entry;
      rows := rows[i := Row(id, e)];
      ReverseTransaction(stored);
      ApplyTransaction(e);
      EditEffect(old(balances), stored, e);
      forall a | a in balances
        ensures NetEffect(rows, a) == NetEffect(old(rows), a) - Delta(stored, a) + Delta(e, a)
      {
        NetReplace(old(rows), i, Row(id, e), a);
      }
    }

    /** `delete`: reverse the row's effect, then remove it. */
    method Delete(id: TxId)
      requires Valid() && HasRow(id)
      modifies this
      ensures Valid() && opening == old(opening) && nextId == old(nextId)
      ensures var i := IndexOf(old(rows), id);
        rows == old(rows)[..i] + old(rows)[i + 1..] &&
        balances == Reverse(old(balances), old(rows)[i].entry)
      ensures !HasRow(id)
      ensures old(Consistent()) ==> Consistent()
    {
      var i := IndexOf(rows, id);
      var stored := rows[i].entry;
      ReverseTransaction(stored);
      rows := rows[..i] + rows[i + 1..];
      ReverseEffect(old(balances), stored);
      forall a | a in balances
        ensures NetEffect(rows, a) == NetEffect(old(rows), a) - Delta(stored, a)
      {
        NetRemove(old(rows), i, a);
      }
      RemoveKeepsRows(old(rows), i);
    }

    /** `Transaction.objects.filter(related_bet=bet).delete()`: a bulk delete
        removes the rows without calling `Transaction.delete`, so no balance changes. */
    method RemoveBetRows(bet: BetId)
      requires Valid()
      modifies this`rows
      ensures Valid()
      ensures rows == WithoutBetRows(old(rows), bet)
      ensures BetRows(rows, bet) == []
    {
      rows := WithoutBetRows(rows, bet);
      FilterKeepsUnique(old(rows), (r: Row) => r.entry.relatedBet != Some(bet));
      assert forall k :: 0 <= k < |rows| ==> rows[k] in old(rows);
      NoBetRowsLeft(old(rows), bet);
    }

    /** `set_initial_balance`: a validated value overwrites the balance; an
        invalid request (`None`) changes nothing. */
    method SetInitialBalance(a: AccountId, value: Option<int>) returns (ok: bool)
      requires Valid() && a in balances
      modifies this
      ensures Valid() && rows == old(rows) && nextId == old(nextId)
      ensures ok == value.Some?
      ensures balances == if ok then old(balances)[a := value.value] else old(balances)
      ensures old(Consistent()) ==> Consistent()
    {
      ok := value.Some?;
      if ok {
        balances := balances[a := value.value];
        opening := opening[a := value.value - NetEffect(rows, a)];
      }
    }
  }

  /** Removing one row keeps the others, ids still distinct, and no row with the removed id. */
  lemma RemoveKeepsRows(rows: seq<Row>, i: nat)
    requires i < |rows| && UniqueIds(rows)
    ensures UniqueIds(rows[..i] + rows[i + 1..])
    ensures var rest := rows[..i] + rows[i + 1..];
      forall k :: 0 <= k < |rest| ==> rest[k] == rows[if k < i then k else k + 1] && rest[k].id != rows[i].id
  {
  }

  lemma NoBetRowsLeft(rows: seq<Row>, bet: BetId)
    ensures BetRows(WithoutBetRows(rows, bet), bet) == []
  {
    Aggregate.FilterNone(WithoutBetRows(rows, bet), (r: Row) => r.entry.relatedBet == Some(bet));
  }

  // ---------------------------------------------------------------------
  // Editing through the viewset: the stale account copy

  /** An edit as the code performs it when the row was loaded by the viewset.
      `get_queryset` loads the row with `select_related('account', 'destination_account')`,
      so `self.account` holds the balance read before the save; `save` reverses the
      old effect on a freshly loaded `old_instance.account` and writes it, then
      `_apply_transaction` adds the new effect to the stale copy and writes that.
      The last write wins on every account the new entry touches. */
  function StaleEdit(db: Balances, oldEntry: Entry, newEntry: Entry): (r: Balances)
    requires Refs(oldEntry) <= db.Keys && Refs(newEntry) <= db.Keys
    ensures r.Keys == db.Keys
  {
    var reversed := Reverse(db, oldEntry);
    var appliedToStale := Apply(db, newEntry);
    map a | a in db :: if a in Touched(newEntry) then appliedToStale[a] else reversed[a]
  }

  /** The stale edit loses the reversal of the old effect on every account the new entry
      writes: it differs from reverse-then-apply by exactly the old effect there. */
  lemma StaleEditLosesReversal(db: Balances, oldEntry: Entry, newEntry: Entry)
    requires Refs(oldEntry) <= db.Keys && Refs(newEntry) <= db.Keys
    ensures forall a :: a in db && a in Touched(newEntry) ==>
      StaleEdit(db, oldEntry, newEntry)[a] == Apply(Reverse(db, oldEntry), newEntry)[a] + Delta(oldEntry, a)
    ensures forall a :: a in db && a !in Touched(newEntry) ==>
      StaleEdit(db, oldEntry, newEntry)[a] == Apply(Reverse(db, oldEntry), newEntry)[a]
  {
    EditEffect(db, oldEntry, newEntry);
    ApplyEffect(db, newEntry);
    ReverseEffect(db, oldEntry);
  }

  /** Editing an income of 100000 on an account holding 100000 down to 60000:
      the intended balance is 60000, the stale edit writes 160000. */
  lemma StaleEditExample()
    ensures var db := map[1 := 100000];
      var before := Entry(1, Income, 100000, Date(2024, 5, 1), 1, None, None, false, false, None);
      var after := before.(amount := 60000);
      Apply(Reverse(db, before), after) == map[1 := 60000] &&
      StaleEdit(db, before, after) == map[1 := 160000]
  {
    var db := map[1 := 100000];
    var before := Entry(1, Income, 100000, Date(2024, 5, 1), 1, None, None, false, false, None);
    var after := before.(amount := 60000);
    StaleEditLosesReversal(db, before, after);
    EditEffect(db, before, after);
  }
}
