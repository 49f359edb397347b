/** `BetViewSet.statistics`: totals, counts, return on investment, win rate,
    best and worst bet, and the per-type and per-result breakdowns of a user's bets.
    Percentages are exact; the two-decimal rounding of the response is left out. */
module BetStats {
  import opened Common
  import opened Ledger
  import opened Bets
  import Aggregate

  function Stake(b: Bet): int {
    b.stake
  }

  function Payout(b: Bet): int {
    b.payout
  }

  /** `payout_amount - bet_amount`, the annotation `best_bet` orders by. */
  function Profit(b: Bet): int {
    b.payout - b.stake
  }

  function WithResult(bets: seq<Bet>, r: Result): (s: seq<Bet>)
    ensures forall b :: b in s <==> b in bets && b.result == r
  {
    Aggregate.Filter(bets, (b: Bet) => b.result == r)
  }

  /** The bet of `s` with the largest `rank`, the first such in table order; none for an empty set. */
  function MaxBy(s: seq<Bet>, rank: Bet -> int): (r: Option<Bet>)
    ensures r.None? <==> s == []
    ensures r.Some? ==> r.value in s && forall b :: b in s ==> rank(b) <= rank(r.value)
  {
    if s == [] then None
    else
      var rest := MaxBy(s[1..], rank);
      if rest.None? || rank(rest.value) <= rank(s[0]) then Some(s[0]) else rest
  }

  function NegStake(b: Bet): int {
    -b.stake
  }

  datatype Statistics = Statistics(
    totalBet: int,
    totalWon: int,
    totalLost: int,
    net: int,
    roi: real,
    totalBets: nat,
    wonCount: nat,
    lostCount: nat,
    pendingCount: nat,
    winRate: real,
    best: Option<Bet>,
    worst: Option<Bet>)

  /** `roi`: net over total stake, in percent; 0 when nothing was staked. */
  function Roi(totalWon: int, totalBet: int): (r: real)
    ensures totalBet <= 0 ==> r == 0.0
    ensures totalBet > 0 ==> (r > 0.0 <==> totalWon > totalBet) && (r == 0.0 <==> totalWon == totalBet)
  {
    if totalBet > 0 then PercentFacts(totalWon - totalBet, totalBet); ((totalWon - totalBet) as real / totalBet as real) * 100.0 else 0.0
  }

  /** `win_rate`: won over resolved bets, in percent; 0 when none is resolved. */
  function WinRate(total: nat, won: nat, lost: nat): (r: real)
    ensures 0.0 <= r <= 100.0
    ensures won + lost == 0 ==> r == 0.0
    ensures total > 0 && won + lost > 0 ==> (r == 100.0 <==> lost == 0) && (r == 0.0 <==> won == 0)
  {
    if total > 0 && won + lost > 0 then PercentFacts(won, won + lost); (won as real / (won + lost) as real) * 100.0 else 0.0
  }

  /** The statistics of the user's bets (the bets passed are the user's). */
  function BetStatistics(bets: seq<Bet>): (s: Statistics)
    ensures s.totalBet == Aggregate.Sum(bets, Stake)
    ensures s.totalWon == Aggregate.Sum(WithResult(bets, Won), Payout)
    ensures s.totalLost == Aggregate.Sum(WithResult(bets, Lost), Stake)
    ensures s.net == s.totalWon - s.totalBet
    ensures s.totalBets == |bets| && s.wonCount == |WithResult(bets, Won)| &&
      s.lostCount == |WithResult(bets, Lost)| && s.pendingCount == |WithResult(bets, Pending)|
    ensures s.roi == Roi(s.totalWon, s.totalBet) && s.winRate == WinRate(s.totalBets, s.wonCount, s.lostCount)
    ensures s.best.None? <==> s.wonCount == 0
    ensures s.best.Some? ==> (s.best.value in bets && s.best.value.result == Won &&
      forall b :: b in bets && b.result == Won ==> Profit(b) <= Profit(s.best.value))
    ensures s.worst.None? <==> s.lostCount == 0
    ensures s.worst.Some? ==> (s.worst.value in bets && s.worst.value.result == Lost &&
      forall b :: b in bets && b.result == Lost ==> s.worst.value.stake <= b.stake)
  {
    var won := WithResult(bets, Won);
    var lost := WithResult(bets, Lost);
    var pending := WithResult(bets, Pending);
    var totalBet := Aggregate.Sum(bets, Stake);
    var totalWon := Aggregate.Sum(won, Payout);
    Statistics(totalBet, totalWon, Aggregate.Sum(lost, Stake), totalWon - totalBet,
               Roi(totalWon, totalBet), |bets|, |won|, |lost|, |pending|,
               WinRate(|bets|, |won|, |lost|), MaxBy(won, Profit), MaxBy(lost, NegStake))
  }

  /** Every bet has exactly one of the three results, so the counts add up to the total. */
  lemma {:induction false} CountsPartition(bets: seq<Bet>)
    ensures |WithResult(bets, Won)| + |WithResult(bets, Lost)| + |WithResult(bets, Pending)| == |bets|
  {
    if bets != [] {
      CountsPartition(bets[1..]);
    }
  }

  /** The ledger's view of a bet: what its generated transaction does to its account. */
  function LedgerEffect(b: Bet): int {
    Delta(GeneratedEntry(b), b.account)
  }

  /** `net_result` is the total the generated transactions moved: the sum of the
      bets' own net results, minus the stakes still pending. */
  lemma NetIsLedgerEffect(bets: seq<Bet>)
    ensures BetStatistics(bets).net == Aggregate.Sum(bets, LedgerEffect)
    ensures BetStatistics(bets).net ==
      Aggregate.Sum(bets, NetResult) - Aggregate.Sum(WithResult(bets, Pending), Stake)
  {
    NetSums(bets);
  }

  lemma {:induction false} NetSums(bets: seq<Bet>)
    ensures Aggregate.Sum(WithResult(bets, Won), Payout) - Aggregate.Sum(bets, Stake) == Aggregate.Sum(bets, LedgerEffect)
    ensures Aggregate.Sum(WithResult(bets, Won), Payout) - Aggregate.Sum(bets, Stake) ==
      Aggregate.Sum(bets, NetResult) - Aggregate.Sum(WithResult(bets, Pending), Stake)
  {
    if bets != [] {
      var b, rest := bets[0], bets[1..];
      NetSums(rest);
      assert LedgerEffect(b) == if b.result == Won then b.payout - b.stake else -b.stake;
      assert WithResult(bets, Won) == (if b.result == Won then [b] else []) + WithResult(rest, Won);
      assert WithResult(bets, Pending) == (if b.result == Pending then [b] else []) + WithResult(rest, Pending);
    }
  }

  // ---------------------------------------------------------------------
  // by_type and by_result

  datatype GroupRow<K> = GroupRow(key: K, totalBet: int, totalWon: Option<int>, count: nat)

  function BetTypeOf(b: Bet): string {
    b.betType
  }

  function ResultOf(b: Bet): Result {
    b.result
  }

  /** The rows of one group: `Sum('bet_amount')`, `Sum('payout_amount', filter=Q(result='ganó'))`
      (null when the group has no won bet), `Count('id')`. */
  function GroupOf<K(==)>(bets: seq<Bet>, key: Bet -> K, k: K): (r: GroupRow<K>)
    ensures r.key == k && r.totalBet == Aggregate.KeyTotal(bets, key, Stake, k)
    ensures r.count == Aggregate.Count(bets, (b: Bet) => key(b) == k)
    ensures r.totalWon.None? <==> forall b :: b in bets && key(b) == k ==> b.result != Won
  {
    var members := Aggregate.Filter(bets, (b: Bet) => key(b) == k);
    var won := WithResult(members, Won);
    GroupRow(k, Aggregate.KeyTotal(bets, key, Stake, k),
             if won == [] then None else Some(Aggregate.Sum(won, Payout)), |members|)
  }

  /** The rows for the listed keys, in the listed order. */
  function RowsFor<K(==)>(bets: seq<Bet>, key: Bet -> K, ks: seq<K>): (r: seq<GroupRow<K>>)
    ensures |r| == |ks|
    ensures forall i :: 0 <= i < |r| ==> r[i] == GroupOf(bets, key, ks[i])
  {
    if ks == [] then [] else [GroupOf(bets, key, ks[0])] + RowsFor(bets, key, ks[1..])
  }

  /** `by_type`: one row per bet type, the largest total stake first. */
  function ByType(bets: seq<Bet>): (r: seq<GroupRow<string>>)
    ensures |r| == |Aggregate.Keys(bets, BetTypeOf)|
    ensures forall i :: 0 <= i < |r| ==> r[i] == GroupOf(bets, BetTypeOf, r[i].key)
  {
    var totals := Aggregate.GroupByTotalDesc(bets, BetTypeOf, Stake);
    Aggregate.GroupByTotalDescRows(bets, BetTypeOf, Stake);
    RowsFor(bets, BetTypeOf, seq(|totals|, i requires 0 <= i < |totals| => totals[i].0))
  }

  /** Rows built from grouped totals carry those totals, in the same order. */
  lemma RowsForTotals(bets: seq<Bet>, totals: seq<(string, int)>)
    requires forall t :: t in totals ==> t.1 == Aggregate.KeyTotal(bets, BetTypeOf, Stake, t.0)
    ensures var r := RowsFor(bets, BetTypeOf, seq(|totals|, i requires 0 <= i < |totals| => totals[i].0));
      |r| == |totals| && forall i :: 0 <= i < |r| ==> r[i].key == totals[i].0 && r[i].totalBet == totals[i].1
  {
    var ks := seq(|totals|, i requires 0 <= i < |totals| => totals[i].0);
    var r := RowsFor(bets, BetTypeOf, ks);
    forall i | 0 <= i < |r|
      ensures r[i].key == totals[i].0 && r[i].totalBet == totals[i].1
    {
      assert r[i] == GroupOf(bets, BetTypeOf, ks[i]);
      assert totals[i] in totals;
    }
  }

  /** The rows of `by_type` are ordered by total stake, largest first, and every
      bet type that occurs has its row. */
  lemma ByTypeOrdered(bets: seq<Bet>)
    ensures var r := ByType(bets);
      (forall i, j :: 0 <= i < j < |r| ==> r[i].totalBet >= r[j].totalBet) &&
      (forall b :: b in bets ==> exists row :: row in r && row.key == b.betType)
  {
    var totals := Aggregate.GroupByTotalDesc(bets, BetTypeOf, Stake);
    Aggregate.GroupByTotalDescRows(bets, BetTypeOf, Stake);
    RowsForTotals(bets, totals);
    var r := ByType(bets);
    assert Aggregate.SortedDesc(totals);
    forall b | b in bets
      ensures exists row :: row in r && row.key == b.betType
    {
      var t :| t in totals && t.0 == BetTypeOf(b);
      var i :| 0 <= i < |totals| && totals[i] == t;
      assert r[i] in r;
    }
  }

  datatype ResultRow = ResultRow(result: Result, totalBet: int, totalPayout: int, count: nat)

  /** One `by_result` row: `Sum('bet_amount')`, `Sum('payout_amount')` over every bet
      of that result, and `Count('id')`. */
  function ResultRowOf(bets: seq<Bet>, r: Result): (row: ResultRow)
    ensures row.result == r && row.totalBet == Aggregate.Sum(WithResult(bets, r), Stake)
    ensures row.totalPayout == Aggregate.Sum(WithResult(bets, r), Payout)
    ensures row.count == |WithResult(bets, r)|
  {
    var members := WithResult(bets, r);
    ResultRow(r, Aggregate.Sum(members, Stake), Aggregate.Sum(members, Payout), |members|)
  }

  function ResultRows(bets: seq<Bet>, ks: seq<Result>): (r: seq<ResultRow>)
    ensures |r| == |ks|
    ensures forall i :: 0 <= i < |r| ==> r[i] == ResultRowOf(bets, ks[i])
  {
    if ks == [] then [] else [ResultRowOf(bets, ks[0])] + ResultRows(bets, ks[1..])
  }

  /** `by_result`: one row per result that occurs, in no particular order. */
  function ByResult(bets: seq<Bet>): (r: seq<ResultRow>)
    ensures forall i :: 0 <= i < |r| ==> r[i] == ResultRowOf(bets, r[i].result)
    ensures forall i, j :: 0 <= i < j < |r| ==> r[i].result != r[j].result
  {
    ResultRows(bets, Aggregate.Keys(bets, ResultOf))
  }

  /** Every result that occurs has its row in `by_result`, and no row is empty. */
  lemma ByResultCovers(bets: seq<Bet>)
    ensures var r := ByResult(bets);
      (forall b :: b in bets ==> exists row :: row in r && row.result == b.result) &&
      (forall row :: row in r ==> row.count > 0)
  {
    var ks := Aggregate.Keys(bets, ResultOf);
    var r := ByResult(bets);
    forall b | b in bets
      ensures exists row :: row in r && row.result == b.result
    {
      var i :| 0 <= i < |ks| && ks[i] == ResultOf(b);
      assert r[i] in r;
    }
    forall row | row in r
      ensures row.count > 0
    {
      var i :| 0 <= i < |r| && r[i] == row;
      assert ks[i] in ks;
      var x :| x in bets && ResultOf(x) == ks[i];
      assert x in WithResult(bets, row.result);
    }
  }
}
