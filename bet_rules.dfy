/** `BetSerializer.validate`: the payout and stake rules, with every field the
    request leaves out taken from the stored bet (or from the defaults on create). */
module BetRules {
  import opened Common
  import opened Bets

  /** The submitted fields; a field the client did not send is `None`. */
  datatype BetAttrs = BetAttrs(result: Option<Result>, payout: Option<int>, stake: Option<int>)

  /** `attrs.get('result', instance.result if instance else 'pendiente')`. */
  function EffectiveResult(a: BetAttrs, instance: Option<Bet>): Result {
    if a.result.Some? then a.result.value else if instance.Some? then instance.value.result else Pending
  }

  /** `attrs.get('payout_amount', instance.payout_amount if instance else 0)`. */
  function EffectivePayout(a: BetAttrs, instance: Option<Bet>): int {
    if a.payout.Some? then a.payout.value else if instance.Some? then instance.value.payout else 0
  }

  /** `attrs.get('bet_amount', instance.bet_amount if instance else None)`. */
  function EffectiveStake(a: BetAttrs, instance: Option<Bet>): Option<int> {
    if a.stake.Some? then a.stake else if instance.Some? then Some(instance.value.stake) else None
  }

  /** `validate(attrs)`: a won bet needs a positive payout, any other bet must not have
      one, and a stake that is present and non-zero must be positive (`if bet_amount and
      bet_amount <= 0`: a zero stake is falsy and passes).  Accepted attributes come back
      unchanged. */
  function ValidateBet(a: BetAttrs, instance: Option<Bet>): (r: Validated<BetAttrs>)
    ensures r.Accepted? ==> r.value == a
    ensures r == Rejected("payout_amount") <==>
      (EffectiveResult(a, instance) == Won) != (EffectivePayout(a, instance) > 0)
    ensures r == Rejected("bet_amount") <==>
      (EffectiveResult(a, instance) == Won) == (EffectivePayout(a, instance) > 0) &&
      EffectiveStake(a, instance).Some? && EffectiveStake(a, instance).value < 0
    ensures r.Accepted? || r == Rejected("payout_amount") || r == Rejected("bet_amount")
  {
    var result := EffectiveResult(a, instance);
    var payout := EffectivePayout(a, instance);
    if result == Won && (payout == 0 || payout <= 0) then Rejected("payout_amount")
    else if result != Won && payout > 0 then Rejected("payout_amount")
    else
      var stake := EffectiveStake(a, instance);
      if stake.Some? && stake.value != 0 && stake.value <= 0 then Rejected("bet_amount")
      else Accepted(a)
  }

  /** A zero stake passes the stake check. */
  lemma ZeroStakeAccepted(instance: Option<Bet>)
    ensures ValidateBet(BetAttrs(Some(Lost), Some(0), Some(0)), instance).Accepted?
  {
  }

  /** On create with nothing but a stake, the bet is pending with no payout. */
  lemma CreateDefaults(stake: int)
    requires stake >= 0
    ensures var a := BetAttrs(None, None, Some(stake));
      EffectiveResult(a, None) == Pending && EffectivePayout(a, None) == 0 &&
      ValidateBet(a, None).Accepted?
  {
  }

  /** A bet stored after validation books a generated transaction whose amount is its
      stake (lost or pending) or its profit over a positive payout (won). */
  lemma AcceptedBetEntry(a: BetAttrs, instance: Option<Bet>, b: Bet)
    requires ValidateBet(a, instance).Accepted?
    requires b.result == EffectiveResult(a, instance) && b.payout == EffectivePayout(a, instance)
    requires EffectiveStake(a, instance) == Some(b.stake)
    ensures b.stake >= 0
    ensures b.result == Won ==> b.payout > 0 && GeneratedEntry(b).amount == b.payout - b.stake
    ensures b.result != Won ==> b.payout <= 0 && GeneratedEntry(b).amount == b.stake
  {
  }
}
