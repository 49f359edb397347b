/** Bets and the ledger: a bet owns the one transaction `_create_transactions`
    generates for it, an edit replaces that transaction and a delete removes it.
    The old transactions are removed with a bulk `QuerySet.delete()`, which does
    not run `Transaction.delete`, so their effect stays in the balances; the
    corrected adapter deletes them one by one through the ledger. */
module Bets {
  import opened Common
  import opened Dates
  import opened Ledger
  import Aggregate

  /** `result`: 'ganó', 'perdió' or 'pendiente' (the serializer admits only these). */
  datatype Result = Won | Lost | Pending

  /** A `Bet` row (event name, sport, odds and notes left out); amounts in cents. */
  datatype Bet = Bet(
    id: BetId,
    user: UserId,
    betType: string,
    stake: int,
    result: Result,
    payout: int,
    account: AccountId,
    date: CalendarDate)

  /** `net_result`: the profit of a won bet, minus the stake of a lost one, 0 while pending. */
  function NetResult(b: Bet): (r: int)
    ensures b.result == Won ==> r == b.payout - b.stake
    ensures b.result == Lost ==> r == -b.stake
    ensures b.result == Pending ==> r == 0
  {
    match b.result
    case Won => b.payout - b.stake
    case Lost => -b.stake
    case Pending => 0
  }

  /** `is_winning`. */
  predicate IsWinning(b: Bet) {
    b.result == Won
  }

  /** The transaction `_create_transactions` generates: a won bet books its net
      profit as an income, a lost or pending bet books its stake as an expense; either
      way on the bet's account and date, linked to the bet. */
  function GeneratedEntry(b: Bet): (e: Entry)
    ensures e.user == b.user && e.account == b.account && e.date == b.date
    ensures e.relatedBet == Some(b.id) && e.destination.None? && Refs(e) == {b.account}
    ensures b.result == Won ==> e.kind == Income && e.amount == b.payout - b.stake
    ensures b.result != Won ==> e.kind == Expense && e.amount == b.stake
  {
    match b.result
    case Won => Entry(b.user, Income, b.payout - b.stake, b.date, b.account, None, None, false, false, Some(b.id))
    case Lost => Entry(b.user, Expense, b.stake, b.date, b.account, None, None, false, false, Some(b.id))
    case Pending => Entry(b.user, Expense, b.stake, b.date, b.account, None, None, false, false, Some(b.id))
  }

  /** `_apply_bet`, as the sequence of balance writes it performs. */
  function ApplyBet(bal: Balances, b: Bet): (r: Balances)
    requires b.account in bal
    ensures r.Keys == bal.Keys
  {
    match b.result
    case Won =>
      var staked := bal[b.account := bal[b.account] - b.stake];
      staked[b.account := staked[b.account] + b.payout]
    case Lost => bal[b.account := bal[b.account] - b.stake]
    case Pending => bal[b.account := bal[b.account] - b.stake]
  }

  /** `_reverse_bet(instance)`. */
  function ReverseBet(bal: Balances, b: Bet): (r: Balances)
    requires b.account in bal
    ensures r.Keys == bal.Keys
  {
    match b.result
    case Won =>
      var refunded := bal[b.account := bal[b.account] + b.stake];
      refunded[b.account := refunded[b.account] - b.payout]
    case Lost => bal[b.account := bal[b.account] + b.stake]
    case Pending => bal[b.account := bal[b.account] + b.stake]
  }

  /** `_reverse_bet` undoes `_apply_bet` for every result, in both orders. */
  lemma ReverseBetUndoesApplyBet(bal: Balances, b: Bet)
    requires b.account in bal
    ensures ReverseBet(ApplyBet(bal, b), b) == bal
    ensures ApplyBet(ReverseBet(bal, b), b) == bal
  {
    assert ReverseBet(ApplyBet(bal, b), b)[b.account] == bal[b.account];
    assert ApplyBet(ReverseBet(bal, b), b)[b.account] == bal[b.account];
  }

  /** The generated transaction moves the account exactly as `_apply_bet` would, which
      is why `save` does not call `_apply_bet` as well.  On a resolved bet the move is
      the bet's net result; on a pending one it is minus the stake. */
  lemma GeneratedEntryIsApplyBet(bal: Balances, b: Bet)
    requires b.account in bal
    ensures Apply(bal, GeneratedEntry(b)) == ApplyBet(bal, b)
    ensures Delta(GeneratedEntry(b), b.account) == if b.result == Pending then -b.stake else NetResult(b)
  {
  }

  // ---------------------------------------------------------------------
  // The adapter on the ledger

  /** The position of the first row the bet generated, or -1. */
  function BetIndex(rows: seq<Row>, bet: BetId): (i: int)
    ensures -1 <= i < |rows|
    ensures 0 <= i ==> rows[i].entry.relatedBet == Some(bet)
    ensures i < 0 ==> forall r :: r in rows ==> r.entry.relatedBet != Some(bet)
  {
    if rows == [] then -1
    else if rows[0].entry.relatedBet == Some(bet) then 0
    else
      var j := BetIndex(rows[1..], bet);
      if j < 0 then -1 else j + 1
  }

  /** Taking one of the bet's rows out of the table removes it from the bet's rows
      and leaves every other row where it was. */
  lemma RemoveBetRowAt(rows: seq<Row>, i: nat, bet: BetId, a: AccountId)
    requires i < |rows| && rows[i].entry.relatedBet == Some(bet)
    ensures var rest := rows[..i] + rows[i + 1..];
      WithoutBetRows(rest, bet) == WithoutBetRows(rows, bet) &&
      |BetRows(rest, bet)| == |BetRows(rows, bet)| - 1 &&
      NetEffect(BetRows(rest, bet), a) == NetEffect(BetRows(rows, bet), a) - Delta(rows[i].entry, a)
  {
    var own := (r: Row) => r.entry.relatedBet == Some(bet);
    var other := (r: Row) => r.entry.relatedBet != Some(bet);
    assert rows == rows[..i] + ([rows[i]] + rows[i + 1..]);
    Aggregate.FilterAppend(rows[..i], [rows[i]] + rows[i + 1..], own);
    Aggregate.FilterAppend(rows[..i], [rows[i]] + rows[i + 1..], other);
    Aggregate.FilterAppend([rows[i]], rows[i + 1..], own);
    Aggregate.FilterAppend([rows[i]], rows[i + 1..], other);
    Aggregate.FilterAppend(rows[..i], rows[i + 1..], own);
    Aggregate.FilterAppend(rows[..i], rows[i + 1..], other);
    assert Aggregate.Filter([rows[i]], own) == [rows[i]];
    assert Aggregate.Filter([rows[i]], other) == [];
    var before := Aggregate.Filter(rows[..i], own);
    var after := Aggregate.Filter(rows[i + 1..], own);
    assert BetRows(rows, bet) == before + ([rows[i]] + after);
    assert BetRows(rows[..i] + rows[i + 1..], bet) == before + after;
    var f := (x: Row) => Delta(x.entry, a);
    Aggregate.SumAppend(before, [rows[i]] + after, f);
    Aggregate.SumAppend([rows[i]], after, f);
    Aggregate.SumAppend(before, after, f);
  }

  /** Deletes every row the bet generated through `Transaction.delete`, one at a time,
      so that each deletion reverses its row's effect. */
  method DeleteBetRows(ledger: Ledger, bet: BetId)
    requires ledger.Valid()
    modifies ledger
    ensures ledger.Valid() && ledger.opening == old(ledger.opening) && ledger.balances.Keys == old(ledger.balances.Keys)
    ensures ledger.rows == WithoutBetRows(old(ledger.rows), bet)
    ensures forall a :: a in ledger.balances ==>
      ledger.balances[a] == old(ledger.balances)[a] - NetEffect(BetRows(old(ledger.rows), bet), a)
    ensures old(ledger.Consistent()) ==> ledger.Consistent()
  {
    ghost var rows0 := ledger.rows;
    ghost var balances0 := ledger.balances;
    ghost var consistent0 := ledger.Consistent();
    var i := BetIndex(ledger.rows, bet);
    while 0 <= i
      invariant ledger.Valid() && ledger.opening == old(ledger.opening) && ledger.balances.Keys == balances0.Keys
      invariant i == BetIndex(ledger.rows, bet)
      invariant WithoutBetRows(ledger.rows, bet) == WithoutBetRows(rows0, bet)
      invariant forall a :: a in ledger.balances ==>
        ledger.balances[a] == balances0[a] - (NetEffect(BetRows(rows0, bet), a) - NetEffect(BetRows(ledger.rows, bet), a))
      invariant consistent0 ==> ledger.Consistent()
      decreases |BetRows(ledger.rows, bet)|
    {
      ghost var before := ledger.rows;
      ghost var balancesBefore := ledger.balances;
      var id := ledger.rows[i].id;
      assert IndexOf(before, id) == i;
      ledger.Delete(id);
      forall a | a in ledger.balances
        ensures NetEffect(BetRows(ledger.rows, bet), a) == NetEffect(BetRows(before, bet), a) - Delta(before[i].entry, a)
      {
        RemoveBetRowAt(before, i, bet, a);
      }
      RemoveBetRowAt(before, i, bet, 0);
      ReverseEffect(balancesBefore, before[i].entry);
      i := BetIndex(ledger.rows, bet);
    }
    Aggregate.FilterAll(ledger.rows, (r: Row) => r.entry.relatedBet != Some(bet));
    Aggregate.FilterNone(ledger.rows, (r: Row) => r.entry.relatedBet == Some(bet));
  }

  lemma BetRowsAppend(rows: seq<Row>, r: Row, bet: BetId)
    ensures BetRows(rows + [r], bet) ==
      BetRows(rows, bet) + (if r.entry.relatedBet == Some(bet) then [r] else [])
    ensures WithoutBetRows(rows + [r], bet) ==
      WithoutBetRows(rows, bet) + (if r.entry.relatedBet == Some(bet) then [] else [r])
  {
    Aggregate.FilterAppend(rows, [r], (x: Row) => x.entry.relatedBet == Some(bet));
    Aggregate.FilterAppend(rows, [r], (x: Row) => x.entry.relatedBet != Some(bet));
  }

  /** The bet owns exactly one row, and that row is what its current fields generate. */
  predicate OwnsGenerated(rows: seq<Row>, b: Bet) {
    |BetRows(rows, b.id)| == 1 && BetRows(rows, b.id)[0].entry == GeneratedEntry(b)
  }

  /** `save` of a new bet: the bet row is stored, then `_create_transactions` creates
      its transaction through `Transaction.save`, which applies it. */
  method CreateBet(ledger: Ledger, b: Bet) returns (id: TxId)
    requires ledger.Valid() && b.account in ledger.balances && BetRows(ledger.rows, b.id) == []
    modifies ledger
    ensures ledger.Valid() && ledger.opening == old(ledger.opening)
    ensures ledger.rows == old(ledger.rows) + [Row(id, GeneratedEntry(b))]
    ensures OwnsGenerated(ledger.rows, b)
    ensures ledger.balances == ApplyBet(old(ledger.balances), b)
    ensures old(ledger.Consistent()) ==> ledger.Consistent()
  {
    id := ledger.Create(GeneratedEntry(b));
    BetRowsAppend(old(ledger.rows), Row(id, GeneratedEntry(b)), b.id);
    GeneratedEntryIsApplyBet(old(ledger.balances), b);
  }

  /** `save` of an existing bet as written: `_update_transactions` bulk-deletes the
      bet's rows, which leaves their effect in the balances, then creates the new one. */
  method UpdateBetAsWritten(ledger: Ledger, b: Bet) returns (id: TxId)
    requires ledger.Valid() && b.account in ledger.balances
    modifies ledger
    ensures ledger.Valid()
    ensures ledger.rows == WithoutBetRows(old(ledger.rows), b.id) + [Row(id, GeneratedEntry(b))]
    ensures OwnsGenerated(ledger.rows, b)
    ensures ledger.balances == Apply(old(ledger.balances), GeneratedEntry(b))
  {
    ledger.RemoveBetRows(b.id);
    id := ledger.Create(GeneratedEntry(b));
    BetRowsAppend(WithoutBetRows(old(ledger.rows), b.id), Row(id, GeneratedEntry(b)), b.id);
  }

  /** `delete` of a bet as written: the bulk delete removes the rows and no balance moves. */
  method DeleteBetAsWritten(ledger: Ledger, b: Bet)
    requires ledger.Valid()
    modifies ledger
    ensures ledger.Valid()
    ensures ledger.rows == WithoutBetRows(old(ledger.rows), b.id) && BetRows(ledger.rows, b.id) == []
    ensures ledger.balances == old(ledger.balances) && ledger.opening == old(ledger.opening)
  {
    ledger.RemoveBetRows(b.id);
  }

  /** After the bulk delete every account still carries the effect of the removed rows:
      its balance is its opening balance plus the remaining rows plus the removed ones. */
  lemma BulkDeleteDrift(balances: Balances, opening: Balances, rows: seq<Row>, bet: BetId, a: AccountId)
    requires a in balances && a in opening && balances[a] == opening[a] + NetEffect(rows, a)
    ensures balances[a] == opening[a] + NetEffect(WithoutBetRows(rows, bet), a) + NetEffect(BetRows(rows, bet), a)
  {
    NetWithoutBetRows(rows, bet, a);
  }

  /** Account 1 opens with 100000 and a lost bet of 5000 takes it to 95000.  Deleting the
      bet as written leaves no rows, so the balance should be back at 100000; it stays at
      95000 and the ledger no longer agrees with its rows. */
  method BulkDeleteExample() returns (balance: int, remaining: nat, ghost consistent: bool)
    ensures balance == 95000 && remaining == 0 && !consistent
  {
    var ledger := new Ledger(map[1 := 100000]);
    var b := Bet(3, 1, "deportes", 5000, Lost, 0, 1, Date(2024, 6, 1));
    var id := ledger.Create(GeneratedEntry(b));
    DeleteBetAsWritten(ledger, b);
    assert ledger.rows == [];
    assert ledger.balances == map[1 := 95000] && ledger.opening == map[1 := 100000];
    balance := ledger.balances[1];
    remaining := |ledger.rows|;
    consistent := ledger.Consistent();
  }

  /** `save` of an existing bet with the old rows deleted through the ledger: every
      account loses the old rows' effect and gains the new transaction's. */
  method UpdateBet(ledger: Ledger, b: Bet) returns (id: TxId)
    requires ledger.Valid() && b.account in ledger.balances
    modifies ledger
    ensures ledger.Valid() && ledger.opening == old(ledger.opening)
    ensures ledger.rows == WithoutBetRows(old(ledger.rows), b.id) + [Row(id, GeneratedEntry(b))]
    ensures OwnsGenerated(ledger.rows, b)
    ensures ledger.balances.Keys == old(ledger.balances.Keys)
    ensures forall a :: a in ledger.balances ==>
      ledger.balances[a] == old(ledger.balances)[a] - NetEffect(BetRows(old(ledger.rows), b.id), a) +
        Delta(GeneratedEntry(b), a)
    ensures old(ledger.Consistent()) ==> ledger.Consistent()
  {
    DeleteBetRows(ledger, b.id);
    ghost var cleared := ledger.balances;
    Aggregate.FilterNone(ledger.rows, (r: Row) => r.entry.relatedBet == Some(b.id)) by {
      NoBetRowsLeft(old(ledger.rows), b.id);
    }
    id := ledger.Create(GeneratedEntry(b));
    BetRowsAppend(WithoutBetRows(old(ledger.rows), b.id), Row(id, GeneratedEntry(b)), b.id);
    ApplyEffect(cleared, GeneratedEntry(b));
  }

  /** `delete` of a bet with its rows deleted through the ledger. */
  method DeleteBet(ledger: Ledger, b: Bet)
    requires ledger.Valid()
    modifies ledger
    ensures ledger.Valid() && ledger.opening == old(ledger.opening)
    ensures ledger.rows == WithoutBetRows(old(ledger.rows), b.id) && BetRows(ledger.rows, b.id) == []
    ensures forall a :: a in ledger.balances ==>
      ledger.balances[a] == old(ledger.balances)[a] - NetEffect(BetRows(old(ledger.rows), b.id), a)
    ensures old(ledger.Consistent()) ==> ledger.Consistent()
  {
    DeleteBetRows(ledger, b.id);
    NoBetRowsLeft(old(ledger.rows), b.id);
  }

  /** When the bet owned only its generated transaction, the corrected update is
      `_reverse_bet` on the old bet followed by `_apply_bet` on the new one. */
  lemma UpdateIsReverseThenApply(rows: seq<Row>, old_: Bet, new_: Bet, bal: Balances, a: AccountId)
    requires OwnsGenerated(rows, old_) && old_.id == new_.id
    requires old_.account in bal && new_.account in bal && a in bal
    ensures bal[a] - NetEffect(BetRows(rows, old_.id), a) + Delta(GeneratedEntry(new_), a) ==
      ApplyBet(ReverseBet(bal, old_), new_)[a]
  {
    var own := BetRows(rows, old_.id);
    assert own == [own[0]] && own[1..] == [];
    assert NetEffect(own[1..], a) == 0;
    assert NetEffect(own, a) == Delta(own[0].entry, a) + NetEffect(own[1..], a);
    assert ReverseBet(bal, old_) == Reverse(bal, GeneratedEntry(old_));
    ReverseEffect(bal, GeneratedEntry(old_));
    GeneratedEntryIsApplyBet(ReverseBet(bal, old_), new_);
    ApplyEffect(ReverseBet(bal, old_), GeneratedEntry(new_));
  }
}
