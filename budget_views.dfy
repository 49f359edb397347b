/** `BudgetViewSet.alerts` and `toggle_active`. */
module BudgetViews {
  import opened Common
  import opened Dates
  import opened Ledger
  import opened Budgets

  /** One entry of the `alerts` response (category name and colour left out). */
  datatype Alert = Alert(id: nat, percentage: real, isExceeded: bool, limit: int, spent: int)

  function AlertOf(d: BudgetData): (a: Alert)
    ensures a.id == d.id && a.percentage == d.percentage && a.isExceeded == d.isExceeded
    ensures a.limit == d.limit && a.spent == d.spent
  {
    Alert(d.id, d.percentage, d.isExceeded, d.limit, d.spent)
  }

  predicate Alerting(d: BudgetData) {
    d.isExceeded || d.isWarning
  }

  predicate Listed(b: Budget, user: UserId) {
    b.user == user && b.isActive
  }

  /** The user's active budgets, serialized, newest first: the model `ordering` is
      `['-created_at']` and the table is in creation order, so the last row leads. */
  function ActiveData(bs: seq<Budget>, user: UserId, rows: seq<Entry>, today: CalendarDate): (r: seq<BudgetData>)
    ensures |r| <= |bs|
    ensures forall d :: d in r <==> exists b :: b in bs && Listed(b, user) && d == Serialize(b, rows, today)
    ensures bs != [] && Listed(bs[|bs| - 1], user) ==> r != [] && r[0] == Serialize(bs[|bs| - 1], rows, today)
  {
    if bs == [] then []
    else
      var rest := ActiveData(bs[..|bs| - 1], user, rows, today);
      var b := bs[|bs| - 1];
      assert forall x :: x in bs <==> x == b || x in bs[..|bs| - 1];
      if Listed(b, user) then [Serialize(b, rows, today)] + rest else rest
  }

  /** A budget created after the others is listed ahead of all of them; the rest keep
      their relative order. */
  lemma NewestListedFirst(bs: seq<Budget>, b: Budget, user: UserId, rows: seq<Entry>, today: CalendarDate)
    ensures ActiveData(bs + [b], user, rows, today) ==
      (if Listed(b, user) then [Serialize(b, rows, today)] else []) + ActiveData(bs, user, rows, today)
  {
    assert (bs + [b])[..|bs|] == bs;
  }

  /** The alerts for a list of serialized budgets, in order. */
  function AlertsFor(ds: seq<BudgetData>): (r: seq<Alert>)
    ensures |r| <= |ds|
    ensures forall a :: a in r <==> exists d :: d in ds && Alerting(d) && a == AlertOf(d)
  {
    if ds == [] then []
    else
      var rest := AlertsFor(ds[..|ds| - 1]);
      var d := ds[|ds| - 1];
      assert forall x :: x in ds <==> x == d || x in ds[..|ds| - 1];
      if Alerting(d) then rest + [AlertOf(d)] else rest
  }

  /** `alerts`: the loop over the serialized active budgets appends one alert per
      budget that is exceeded or in warning. */
  method Alerts(bs: seq<Budget>, user: UserId, rows: seq<Entry>, today: CalendarDate) returns (alerts: seq<Alert>)
    ensures alerts == AlertsFor(ActiveData(bs, user, rows, today))
    ensures forall a :: a in alerts <==>
      exists b :: b in bs && Listed(b, user) && Alerting(Serialize(b, rows, today)) &&
        a == AlertOf(Serialize(b, rows, today))
  {
    var data := ActiveData(bs, user, rows, today);
    alerts := [];
    var i := 0;
    while i < |data|
      invariant 0 <= i <= |data|
      invariant alerts == AlertsFor(data[..i])
    {
      assert data[..i + 1][..i] == data[..i];
      if data[i].isExceeded || data[i].isWarning {
        alerts := alerts + [AlertOf(data[i])];
      }
      i := i + 1;
    }
    assert data[..i] == data;
  }

  /** An exceeded budget always raises an alert, flagged as exceeded. */
  lemma ExceededAlerts(bs: seq<Budget>, user: UserId, rows: seq<Entry>, today: CalendarDate, b: Budget)
    requires b in bs && Listed(b, user) && b.limit > 0
    requires Spent(b, rows, today) >= b.limit
    ensures exists a :: a in AlertsFor(ActiveData(bs, user, rows, today)) && a.id == b.id && a.isExceeded
  {
    var d := Serialize(b, rows, today);
    assert d in ActiveData(bs, user, rows, today);
    assert AlertOf(d) in AlertsFor(ActiveData(bs, user, rows, today));
  }

  /** The flag flips and nothing else changes, so toggling twice restores the budget. */
  function Toggled(b: Budget): (r: Budget)
    ensures r.isActive == !b.isActive && r.(isActive := b.isActive) == b
    ensures r.(isActive := !r.isActive) == b
  {
    b.(isActive := !b.isActive)
  }

  /** `toggle_active` on the row at index `i` of the budgets table. */
  method ToggleActive(budgets: array<Budget>, i: nat)
    requires i < budgets.Length
    modifies budgets
    ensures budgets[i] == Toggled(old(budgets[i]))
    ensures forall k :: 0 <= k < budgets.Length && k != i ==> budgets[k] == old(budgets[k])
  {
    var budget := budgets[i];
    budgets[i] := budget.(isActive := !budget.isActive);
  }
}
