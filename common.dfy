/** Values that the backend's models leave empty (`null=True` fields, missing
    request parameters) and the outcome of a validating serializer. */
module Common {

  /** Primary keys of the backend's tables. */
  type UserId = nat
  type AccountId = nat
  type CategoryId = nat
  type TxId = nat
  type BetId = nat

  datatype Option<T> = None | Some(value: T) {
    function GetOr(default: T): T {
      match this
      case Some(v) => v
      case None => default
    }
  }

  /** A serializer's verdict: the accepted value, or the field it rejected. */
  datatype Validated<T> = Accepted(value: T) | Rejected(field: string)

  function MinInt(a: int, b: int): int {
    if a <= b then a else b
  }

  function MaxInt(a: int, b: int): int {
    if a >= b then a else b
  }

  /** The percentage `p / t * 100` of a positive whole: its sign is that of `p`, and
      it reaches 100 exactly when `p` reaches `t`. */
  lemma PercentFacts(p: int, t: int)
    requires t > 0
    ensures var q := (p as real / t as real) * 100.0;
      (q >= 100.0 <==> p >= t) && (q == 0.0 <==> p == 0) && (q > 0.0 <==> p > 0) && (q < 0.0 <==> p < 0) &&
      (0 <= p <= t ==> 0.0 <= q <= 100.0)
  {
    var x := p as real / t as real;
    assert x * t as real == p as real;
    if p >= t {
      assert x >= 1.0;
    } else {
      assert x < 1.0;
    }
    if p > 0 {
      assert x > 0.0;
    } else if p < 0 {
      assert x < 0.0;
    }
  }
}
