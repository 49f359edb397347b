/** Investments: `profit_loss` and `profit_loss_percentage` of one holding, and the
    `summary` and `update_value` actions of `InvestmentViewSet`. */
module Investments {
  import opened Common
  import Aggregate

  /** An `Investment` row (name, dates, expected return, account and notes left out).
      `kind` is the `investment_type` code. */
  datatype Investment = Investment(id: nat, user: UserId, kind: string, initial: int, current: int, isActive: bool)

  /** `profit_loss`. */
  function ProfitLoss(inv: Investment): (r: int)
    ensures r + inv.initial == inv.current
  {
    inv.current - inv.initial
  }

  /** The gain of `current` over `initial` in percent; 0 when `initial` is not positive.
      Both `profit_loss_percentage` and the summary's `percentage` are this. */
  function ReturnPercentage(initial: int, current: int): (r: real)
    ensures initial <= 0 ==> r == 0.0
    ensures initial > 0 ==> (r > 0.0 <==> current > initial) && (r < 0.0 <==> current < initial)
    ensures initial > 0 ==> (r == 0.0 <==> current == initial)
    ensures initial > 0 && current >= 0 ==> r >= -100.0
  {
    if initial > 0 then ((current - initial) as real / initial as real) * 100.0 else 0.0
  }

  /** `profit_loss_percentage`: it has the sign of `profit_loss`. */
  function ProfitLossPercentage(inv: Investment): (r: real)
    ensures inv.initial <= 0 ==> r == 0.0
    ensures inv.initial > 0 ==> (r > 0.0 <==> ProfitLoss(inv) > 0) && (r < 0.0 <==> ProfitLoss(inv) < 0)
  {
    ReturnPercentage(inv.initial, inv.current)
  }

  function Initial(inv: Investment): int {
    inv.initial
  }

  function Current(inv: Investment): int {
    inv.current
  }

  function KindOf(inv: Investment): string {
    inv.kind
  }

  /** The user's active investments. */
  function ActiveOf(invs: seq<Investment>, user: UserId): (r: seq<Investment>)
    ensures forall inv :: inv in r <==> inv in invs && inv.user == user && inv.isActive
  {
    Aggregate.Filter(invs, (inv: Investment) => inv.user == user && inv.isActive)
  }

  datatype InvestmentSummary = InvestmentSummary(
    totalInvested: int,
    totalCurrent: int,
    totalProfitLoss: int,
    percentage: real,
    byType: seq<(string, int)>,
    count: nat)

  /** `summary`: totals over the active investments only (an empty sum is 0), their
      difference and percentage, the current value per type largest first, and the count. */
  function Summary(invs: seq<Investment>, user: UserId): (r: InvestmentSummary)
    ensures var act := ActiveOf(invs, user);
      r.totalInvested == Aggregate.Sum(act, Initial) && r.totalCurrent == Aggregate.Sum(act, Current) &&
      r.count == |act|
    ensures r.totalProfitLoss == r.totalCurrent - r.totalInvested
    ensures r.percentage == ReturnPercentage(r.totalInvested, r.totalCurrent)
    ensures Aggregate.SortedDesc(r.byType)
    ensures forall row :: row in r.byType ==> row.1 == Aggregate.KeyTotal(ActiveOf(invs, user), KindOf, Current, row.0)
    ensures forall inv :: inv in ActiveOf(invs, user) ==> exists row :: row in r.byType && row.0 == KindOf(inv)
  {
    var act := ActiveOf(invs, user);
    var initial := Aggregate.Sum(act, Initial);
    var current := Aggregate.Sum(act, Current);
    Aggregate.GroupByTotalDescRows(act, KindOf, Current);
    InvestmentSummary(initial, current, current - initial, ReturnPercentage(initial, current),
                      Aggregate.GroupByTotalDesc(act, KindOf, Current), |act|)
  }

  /** The summary's profit is the sum of the holdings' own `profit_loss`. */
  lemma SummaryProfitIsSum(invs: seq<Investment>, user: UserId)
    ensures Summary(invs, user).totalProfitLoss == Aggregate.Sum(ActiveOf(invs, user), ProfitLoss)
  {
    Aggregate.SumLinear(ActiveOf(invs, user), Current, Initial, ProfitLoss);
  }

  /** An inactive investment, or another user's, does not change the summary. */
  lemma {:induction false} InactiveIgnored(invs: seq<Investment>, user: UserId, inv: Investment)
    requires !inv.isActive || inv.user != user
    ensures Summary(invs + [inv], user) == Summary(invs, user)
  {
    Aggregate.FilterAppend(invs, [inv], (x: Investment) => x.user == user && x.isActive);
    assert Aggregate.Filter([inv], (x: Investment) => x.user == user && x.isActive) == [];
    assert ActiveOf(invs + [inv], user) == ActiveOf(invs, user);
  }

  /** `update_value` on the row at index `i`: a given value replaces `current_amount`
      and nothing else; a missing value is refused and nothing changes. */
  method UpdateValue(invs: array<Investment>, i: nat, newValue: Option<int>) returns (accepted: bool)
    requires i < invs.Length
    modifies invs
    ensures accepted <==> newValue.Some?
    ensures accepted ==> invs[i] == old(invs[i]).(current := newValue.value)
    ensures !accepted ==> invs[i] == old(invs[i])
    ensures forall k :: 0 <= k < invs.Length && k != i ==> invs[k] == old(invs[k])
  {
    if newValue.None? {
      return false;
    }
    var investment := invs[i];
    invs[i] := investment.(current := newValue.value);
    accepted := true;
  }
}
