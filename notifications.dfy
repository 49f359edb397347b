/** The frontend notification store: it turns the user's debts and budgets into
    alerts, remembers in browser storage which alerts were read and until when each
    was dismissed, and hands unread alerts to the e-mail senders.  The server
    responses are inputs: a debt's days to its due date and a budget's figures as
    the API reports them. */
module Notifications {
  import opened Common
  import opened Text
  import Aggregate
  import opened Email

  datatype AlertKind = DebtDue | DebtOverdue | BudgetExceeded | BudgetLow
  datatype Severity = Danger | Warning

  /** An alert as pushed into the store (title and message text left out). */
  datatype Alert = Alert(key: string, kind: AlertKind, subject: nat, severity: Severity, dismissed: bool, read: bool)

  /** `type === 'debt'`. */
  predicate IsDebt(a: Alert) {
    a.kind == DebtDue || a.kind == DebtOverdue
  }

  function KindPrefix(k: AlertKind): string {
    match k
    case DebtDue => "debt_"
    case DebtOverdue => "debt_overdue_"
    case BudgetExceeded => "budget_exceeded_"
    case BudgetLow => "budget_low_"
  }

  /** The alert ids `debt_{id}`, `debt_overdue_{id}`, `budget_exceeded_{id}` and `budget_low_{id}`. */
  function AlertKey(k: AlertKind, id: nat): string {
    KindPrefix(k) + NatString(id)
  }

  lemma KeyShape(k: AlertKind, id: nat)
    ensures var key := AlertKey(k, id);
      |key| > 5 && key[1] == (if k == DebtDue || k == DebtOverdue then 'e' else 'u') &&
      (k == DebtDue ==> IsDigit(key[5])) && (k == DebtOverdue ==> key[5] == 'o') &&
      (k == BudgetExceeded ==> |key| > 7 && key[7] == 'e') && (k == BudgetLow ==> |key| > 7 && key[7] == 'l')
  {
    var key := AlertKey(k, id);
    assert key == KindPrefix(k) + NatString(id);
    if k == DebtDue {
      assert key[5] == NatString(id)[0];
    }
  }

  /** Different alerts have different ids, so reading or dismissing one leaves the others alone. */
  lemma AlertKeyInjective(k: AlertKind, a: nat, j: AlertKind, b: nat)
    requires AlertKey(k, a) == AlertKey(j, b)
    ensures k == j && a == b
  {
    KeyShape(k, a);
    KeyShape(j, b);
    DropPrefix(KindPrefix(k), NatString(a), NatString(b));
    NatStringInjective(a, b);
  }

  /** The alert's id is the one its kind and subject give. */
  predicate WellKeyed(a: Alert) {
    a.key == AlertKey(a.kind, a.subject)
  }

  /** `isRead`: the stored flag is exactly `true`. */
  predicate IsReadIn(readMap: map<string, bool>, key: string) {
    key in readMap && readMap[key]
  }

  /** `isDismissed`: a non-zero stored time that has not yet been reached. */
  predicate IsDismissedIn(dismissed: map<string, int>, key: string, now: int) {
    key in dismissed && dismissed[key] != 0 && now < dismissed[key]
  }

  /** Storing `until` for a key dismisses it exactly for the times before `until`, and
      changes no other key. */
  lemma DismissWindow(dismissed: map<string, int>, key: string, until: int, other: string, t: int)
    ensures IsDismissedIn(dismissed[key := until], key, t) <==> until != 0 && t < until
    ensures other != key ==> IsDismissedIn(dismissed[key := until], other, t) == IsDismissedIn(dismissed, other, t)
  {
  }

  /** A debt as the API lists it: `days` is the whole number of days to the due date,
      or None when there is no due date. */
  datatype DebtItem = DebtItem(id: nat, isPaid: bool, days: Option<int>)

  /** The inputs an alert takes from storage at check time. */
  datatype Storage = Storage(readMap: map<string, bool>, dismissed: map<string, int>, now: int)

  function MakeAlert(k: AlertKind, id: nat, sev: Severity, st: Storage): (a: Alert)
    ensures a.key == AlertKey(k, id) && a.kind == k && a.subject == id && a.severity == sev
    ensures a.read == IsReadIn(st.readMap, a.key) && a.dismissed == IsDismissedIn(st.dismissed, a.key, st.now)
  {
    var key := AlertKey(k, id);
    Alert(key, k, id, sev, IsDismissedIn(st.dismissed, key, st.now), IsReadIn(st.readMap, key))
  }

  /** The upcoming-debt alert: raised iff the debt is unpaid, has a due date and is due
      within `debtDaysBefore` days; `danger` iff at most three days remain. */
  function UpcomingAlert(d: DebtItem, p: Preferences, st: Storage): (r: Option<Alert>)
    ensures r.Some? <==> !d.isPaid && d.days.Some? && 0 <= d.days.value <= p.debtDaysBefore
    ensures r.Some? ==> (r.value.kind == DebtDue && r.value.subject == d.id && WellKeyed(r.value) &&
      (r.value.severity == Danger <==> d.days.value <= 3))
  {
    if d.isPaid || d.days.None? then None
    else if d.days.value <= p.debtDaysBefore && d.days.value >= 0 then
      Some(MakeAlert(DebtDue, d.id, if d.days.value <= 3 then Danger else Warning, st))
    else None
  }

  /** The overdue-debt alert: raised iff the debt is unpaid and its due date has passed;
      always `danger`. */
  function OverdueAlert(d: DebtItem, st: Storage): (r: Option<Alert>)
    ensures r.Some? <==> !d.isPaid && d.days.Some? && d.days.value < 0
    ensures r.Some? ==> r.value.kind == DebtOverdue && r.value.subject == d.id && r.value.severity == Danger && WellKeyed(r.value)
  {
    if d.isPaid || d.days.None? then None
    else if d.days.value < 0 then Some(MakeAlert(DebtOverdue, d.id, Danger, st))
    else None
  }

  function Opt(o: Option<Alert>): (s: seq<Alert>)
    ensures |s| <= 1 && (o.Some? ==> s == [o.value]) && (o.None? ==> s == [])
  {
    if o.Some? then [o.value] else []
  }

  /** The alerts of one debt, in push order; a debt never has both. */
  function DebtAlertsOf(d: DebtItem, p: Preferences, st: Storage): (r: seq<Alert>)
    ensures |r| <= 1
    ensures r != [] <==> !d.isPaid && d.days.Some? && (d.days.value < 0 || d.days.value <= p.debtDaysBefore)
  {
    Opt(UpcomingAlert(d, p, st)) + Opt(OverdueAlert(d, st))
  }

  function DebtIds(debts: seq<DebtItem>): set<nat> {
    set d | d in debts :: d.id
  }

  /** The alerts of a list of debts, in list order. */
  function DebtAlerts(debts: seq<DebtItem>, p: Preferences, st: Storage): (r: seq<Alert>)
    ensures forall a :: a in r ==> IsDebt(a)
  {
    if debts == [] then []
    else DebtAlerts(debts[..|debts| - 1], p, st) + DebtAlertsOf(debts[|debts| - 1], p, st)
  }

  /** Each debt alert carries its own id and names a listed debt. */
  lemma {:induction false} DebtAlertsShape(debts: seq<DebtItem>, p: Preferences, st: Storage)
    ensures forall a :: a in DebtAlerts(debts, p, st) ==> WellKeyed(a) && a.subject in DebtIds(debts)
  {
    if debts != [] {
      DebtAlertsShape(debts[..|debts| - 1], p, st);
      assert forall d :: d in debts[..|debts| - 1] ==> d in debts;
      assert debts[|debts| - 1] in debts;
    }
  }

  /** Each budget alert carries its own id and names a listed budget. */
  lemma {:induction false} BudgetAlertsShape(budgets: seq<BudgetItem>, st: Storage)
    ensures forall a :: a in BudgetAlerts(budgets, st) ==> WellKeyed(a) && a.subject in BudgetIds(budgets)
  {
    if budgets != [] {
      BudgetAlertsShape(budgets[..|budgets| - 1], st);
      assert forall b :: b in budgets[..|budgets| - 1] ==> b in budgets;
      assert budgets[|budgets| - 1] in budgets;
    }
  }

  predicate DistinctKeys(alerts: seq<Alert>) {
    forall i, j :: 0 <= i < j < |alerts| ==> alerts[i].key != alerts[j].key
  }

  /** Debts with distinct ids raise alerts with distinct ids. */
  lemma {:induction false} DebtKeysDistinct(debts: seq<DebtItem>, p: Preferences, st: Storage)
    requires forall i, j :: 0 <= i < j < |debts| ==> debts[i].id != debts[j].id
    ensures DistinctKeys(DebtAlerts(debts, p, st))
  {
    if debts != [] {
      var init := debts[..|debts| - 1];
      var d := debts[|debts| - 1];
      DebtKeysDistinct(init, p, st);
      DebtAlertsShape(init, p, st);
      var before := DebtAlerts(init, p, st);
      var last := DebtAlertsOf(d, p, st);
      assert d.id !in DebtIds(init) by {
        forall e | e in init ensures e.id != d.id {
          var k :| 0 <= k < |init| && init[k] == e;
        }
      }
      forall i, j | 0 <= i < |before| && 0 <= j < |last| ensures before[i].key != last[j].key {
        var a := before[i];
        var b := last[j];
        assert a in before;
        assert b == last[0];
        if a.key == b.key {
          AlertKeyInjective(a.kind, a.subject, b.kind, b.subject);
        }
      }
    }
  }

  /** A budget as the API lists it.  `spent`, `percentage` and `alert_threshold` arrive as
      numbers, which are falsy when absent or zero.  `amount_limit` arrives as a decimal
      string: `limit` is the number it reads as, and `None` only when the field is absent;
      a present string such as "0.00" is truthy. */
  datatype BudgetItem = BudgetItem(
    id: nat, isActive: bool, spent: Option<real>, limit: Option<real>,
    percentage: Option<real>, threshold: Option<real>)

  function BudgetIds(budgets: seq<BudgetItem>): set<nat> {
    set b | b in budgets :: b.id
  }

  /** `x || d` for a number. */
  function OrElse(x: Option<real>, d: real): real {
    if x.Some? && x.value != 0.0 then x.value else d
  }

  /** A JavaScript number as far as the budget check needs one: a finite value, an
      infinity from dividing by a zero limit, or NaN from zero over zero. */
  datatype JsNumber = Finite(v: real) | PosInfinity | NegInfinity | NaN

  /** `x / y` on finite JavaScript numbers, `y` a positive zero when it is zero. */
  function Divide(x: real, y: real): (r: JsNumber)
    ensures y != 0.0 ==> r == Finite(x / y)
    ensures y == 0.0 ==> (r == PosInfinity <==> x > 0.0) && (r == NegInfinity <==> x < 0.0) && (r == NaN <==> x == 0.0)
  {
    if y != 0.0 then Finite(x / y)
    else if x > 0.0 then PosInfinity
    else if x < 0.0 then NegInfinity
    else NaN
  }

  /** `x * 100`: infinities and NaN stay what they are. */
  function Percent(x: JsNumber): (r: JsNumber)
    ensures r.Finite? <==> x.Finite?
    ensures x.Finite? ==> r.v == x.v * 100.0
    ensures !x.Finite? ==> r == x
  {
    if x.Finite? then Finite(x.v * 100.0) else x
  }

  /** `x >= t`: true for positive infinity, false for negative infinity and for NaN. */
  predicate AtLeast(x: JsNumber, t: real) {
    match x
    case Finite(v) => v >= t
    case PosInfinity => true
    case NegInfinity => false
    case NaN => false
  }

  /** The reported percentage, or spent over limit times 100 when the report gives none
      (or 0, which the serializer reports for a limit that is not positive). */
  function SpentPercentage(b: BudgetItem): (r: JsNumber)
    requires b.limit.Some?
    ensures b.percentage.Some? && b.percentage.value != 0.0 ==> r == Finite(b.percentage.value)
    ensures b.limit.value == 0.0 && OrElse(b.percentage, 0.0) == 0.0 ==>
      (AtLeast(r, 100.0) <==> OrElse(b.spent, 0.0) > 0.0) && (r == NaN <==> OrElse(b.spent, 0.0) == 0.0)
  {
    if b.percentage.Some? && b.percentage.value != 0.0 then Finite(b.percentage.value)
    else Percent(Divide(OrElse(b.spent, 0.0), b.limit.value))
  }

  function Threshold(b: BudgetItem): real {
    OrElse(b.threshold, 80.0)
  }

  /** The budget alert: none for an inactive budget or one listed without a limit;
      `exceeded` (danger) iff the percentage reaches 100; otherwise `low` (warning) iff it
      reaches the threshold.  A NaN percentage reaches neither. */
  function BudgetAlertOf(b: BudgetItem, st: Storage): (r: Option<Alert>)
    ensures r.Some? <==> (b.isActive && b.limit.Some? &&
      (AtLeast(SpentPercentage(b), 100.0) || AtLeast(SpentPercentage(b), Threshold(b))))
    ensures r.Some? ==> r.value.subject == b.id && WellKeyed(r.value) && (r.value.kind == BudgetExceeded || r.value.kind == BudgetLow)
    ensures r.Some? ==> (r.value.kind == BudgetExceeded <==> AtLeast(SpentPercentage(b), 100.0))
    ensures r.Some? ==> (r.value.severity == Danger <==> r.value.kind == BudgetExceeded)
  {
    if !b.isActive then None
    else if b.limit.None? then None
    else if AtLeast(SpentPercentage(b), 100.0) then Some(MakeAlert(BudgetExceeded, b.id, Danger, st))
    else if AtLeast(SpentPercentage(b), Threshold(b)) then Some(MakeAlert(BudgetLow, b.id, Warning, st))
    else None
  }

  /** A zero limit is no reason to skip a budget: with spending, the percentage is
      spent / 0 × 100, positive infinity, and the budget is reported exceeded; without
      spending it is NaN and no alert is raised. */
  lemma ZeroLimitAlerts(b: BudgetItem, st: Storage)
    requires b.isActive && b.limit == Some(0.0) && OrElse(b.percentage, 0.0) == 0.0
    ensures OrElse(b.spent, 0.0) > 0.0 ==> BudgetAlertOf(b, st).Some? && BudgetAlertOf(b, st).value.kind == BudgetExceeded
    ensures OrElse(b.spent, 0.0) == 0.0 ==> BudgetAlertOf(b, st).None?
  {
  }

  function BudgetAlerts(budgets: seq<BudgetItem>, st: Storage): (r: seq<Alert>)
    ensures forall a :: a in r ==> !IsDebt(a)
  {
    if budgets == [] then []
    else BudgetAlerts(budgets[..|budgets| - 1], st) + Opt(BudgetAlertOf(budgets[|budgets| - 1], st))
  }

  /** Budgets with distinct ids raise alerts with distinct ids. */
  lemma {:induction false} BudgetKeysDistinct(budgets: seq<BudgetItem>, st: Storage)
    requires forall i, j :: 0 <= i < j < |budgets| ==> budgets[i].id != budgets[j].id
    ensures DistinctKeys(BudgetAlerts(budgets, st))
  {
    if budgets != [] {
      var init := budgets[..|budgets| - 1];
      var b := budgets[|budgets| - 1];
      BudgetKeysDistinct(init, st);
      BudgetAlertsShape(init, st);
      var before := BudgetAlerts(init, st);
      var last := Opt(BudgetAlertOf(b, st));
      assert b.id !in BudgetIds(init) by {
        forall e | e in init ensures e.id != b.id {
          var k :| 0 <= k < |init| && init[k] == e;
        }
      }
      forall i | 0 <= i < |before| && last != [] ensures before[i].key != last[0].key {
        var a := before[i];
        assert a in before;
        if a.key == last[0].key {
          AlertKeyInjective(a.kind, a.subject, last[0].kind, last[0].subject);
        }
      }
    }
  }

  /** Every alert list a check builds has distinct ids, so `find` in `markAsRead` and
      `dismissAlert` reaches the only alert with the id. */
  lemma CheckedKeysDistinct(debts: seq<DebtItem>, budgets: seq<BudgetItem>, p: Preferences, st: Storage)
    requires forall i, j :: 0 <= i < j < |debts| ==> debts[i].id != debts[j].id
    requires forall i, j :: 0 <= i < j < |budgets| ==> budgets[i].id != budgets[j].id
    ensures DistinctKeys(DebtAlerts(debts, p, st) + BudgetAlerts(budgets, st))
  {
    var ds := DebtAlerts(debts, p, st);
    var bs := BudgetAlerts(budgets, st);
    DebtKeysDistinct(debts, p, st);
    BudgetKeysDistinct(budgets, st);
    DebtAlertsShape(debts, p, st);
    BudgetAlertsShape(budgets, st);
    forall i, j | 0 <= i < |ds| && 0 <= j < |bs| ensures ds[i].key != bs[j].key {
      assert ds[i] in ds && bs[j] in bs;
      if ds[i].key == bs[j].key {
        AlertKeyInjective(ds[i].kind, ds[i].subject, bs[j].kind, bs[j].subject);
      }
    }
  }

  predicate NotRead(a: Alert) {
    !a.read
  }

  predicate NotDismissed(a: Alert) {
    !a.dismissed
  }

  /** The alerts handed to the e-mail sender: the unread ones, when e-mail is on and the
      user has an address. */
  function Emailed(alerts: seq<Alert>, on: bool): (r: seq<Alert>)
    ensures forall a :: a in r <==> on && a in alerts && !a.read
  {
    if on then Aggregate.Filter(alerts, NotRead) else []
  }

  /** `allAlerts`: the alerts not dismissed when they were checked. */
  function Visible(alerts: seq<Alert>): (r: seq<Alert>)
    ensures forall a :: a in r <==> a in alerts && !a.dismissed
  {
    Aggregate.Filter(alerts, NotDismissed)
  }

  /** `unreadAlerts`: visible alerts whose id is not stored as read. */
  function Unread(alerts: seq<Alert>, readMap: map<string, bool>): (r: seq<Alert>)
    ensures forall a :: a in r <==> a in alerts && !a.dismissed && !IsReadIn(readMap, a.key)
  {
    Aggregate.Filter(Visible(alerts), (a: Alert) => !IsReadIn(readMap, a.key))
  }

  /** `readAlerts`: visible alerts whose id is stored as read. */
  function Read(alerts: seq<Alert>, readMap: map<string, bool>): (r: seq<Alert>)
    ensures forall a :: a in r <==> a in alerts && !a.dismissed && IsReadIn(readMap, a.key)
  {
    Aggregate.Filter(Visible(alerts), (a: Alert) => IsReadIn(readMap, a.key))
  }

  /** The unread and the read alerts split the visible ones between them. */
  lemma ReadPartition(alerts: seq<Alert>, readMap: map<string, bool>)
    ensures |Unread(alerts, readMap)| + |Read(alerts, readMap)| == |Visible(alerts)|
  {
    Aggregate.FilterComplement(Visible(alerts), (a: Alert) => !IsReadIn(readMap, a.key), (a: Alert) => IsReadIn(readMap, a.key));
  }

  lemma UnreadCons(xs: seq<Alert>, readMap: map<string, bool>)
    requires xs != []
    ensures Unread(xs, readMap) ==
      (if !xs[0].dismissed && !IsReadIn(readMap, xs[0].key) then [xs[0]] else []) + Unread(xs[1..], readMap)
  {
  }

  /** Marking an id as read, in storage and on any of the alerts carrying it, leaves as
      unread exactly the unread alerts with other ids. */
  lemma {:induction false} UnreadAfterMark(xs: seq<Alert>, ys: seq<Alert>, readMap: map<string, bool>, key: string)
    requires |ys| == |xs|
    requires forall j :: 0 <= j < |xs| ==> ys[j] == xs[j] || (xs[j].key == key && ys[j] == xs[j].(read := true))
    ensures Unread(ys, readMap[key := true]) ==
      Aggregate.Filter(Unread(xs, readMap), (a: Alert) => a.key != key)
  {
    var other := (a: Alert) => a.key != key;
    if xs != [] {
      var xt, yt := xs[1..], ys[1..];
      assert forall j :: 0 <= j < |xt| ==> yt[j] == xt[j] || (xt[j].key == key && yt[j] == xt[j].(read := true)) by {
        forall j | 0 <= j < |xt| ensures xt[j] == xs[j + 1] && yt[j] == ys[j + 1] { }
      }
      UnreadAfterMark(xt, yt, readMap, key);
      UnreadCons(xs, readMap);
      UnreadCons(ys, readMap[key := true]);
      var hx := if !xs[0].dismissed && !IsReadIn(readMap, xs[0].key) then [xs[0]] else [];
      MarkHead(xs[0], ys[0], readMap, key);
      Aggregate.FilterAppend(hx, Unread(xt, readMap), other);
    }
  }

  /** The alert list after `find` flagged the first alert with the id as read. */
  function MarkFirst(xs: seq<Alert>, key: string): (ys: seq<Alert>)
    ensures |ys| == |xs|
    ensures forall j :: 0 <= j < |xs| ==> ys[j] == if j == FirstWithKey(xs, key) then xs[j].(read := true) else xs[j]
  {
    var i := FirstWithKey(xs, key);
    if i >= 0 then xs[i := xs[i].(read := true)] else xs
  }

  /** `UnreadAfterMark` for the list in which only the first alert with the id is flagged. */
  lemma MarkFirstUnread(xs: seq<Alert>, readMap: map<string, bool>, key: string)
    ensures Unread(MarkFirst(xs, key), readMap[key := true]) ==
      Aggregate.Filter(Unread(xs, readMap), (a: Alert) => a.key != key)
  {
    var ys := MarkFirst(xs, key);
    assert forall j :: 0 <= j < |xs| ==> ys[j] == xs[j] || (xs[j].key == key && ys[j] == xs[j].(read := true));
    UnreadAfterMark(xs, ys, readMap, key);
  }

  /** The head step of `UnreadAfterMark`. */
  lemma MarkHead(x: Alert, y: Alert, readMap: map<string, bool>, key: string)
    requires y == x || (x.key == key && y == x.(read := true))
    ensures (if !y.dismissed && !IsReadIn(readMap[key := true], y.key) then [y] else []) ==
      Aggregate.Filter(if !x.dismissed && !IsReadIn(readMap, x.key) then [x] else [], (a: Alert) => a.key != key)
  {
    var hx := if !x.dismissed && !IsReadIn(readMap, x.key) then [x] else [];
    if hx != [] {
      assert hx[1..] == [];
    }
  }

  /** The first alert with the given id (`find`), or -1. */
  function FirstWithKey(alerts: seq<Alert>, key: string): (i: int)
    ensures -1 <= i < |alerts|
    ensures i >= 0 ==> alerts[i].key == key && forall j :: 0 <= j < i ==> alerts[j].key != key
    ensures i < 0 ==> forall j :: 0 <= j < |alerts| ==> alerts[j].key != key
  {
    if alerts == [] then -1
    else if alerts[0].key == key then 0
    else
      var i := FirstWithKey(alerts[1..], key);
      if i < 0 then -1 else i + 1
  }

  /** The e-mail an alert triggers: both debt alerts of a debt share the reminder's
      throttle; a budget's two alerts are throttled apart. */
  function EmailSubject(a: Alert): (s: Subject)
    ensures IsDebt(a) <==> s.DebtReminder?
  {
    match a.kind
    case DebtDue => DebtReminder(a.subject)
    case DebtOverdue => DebtReminder(a.subject)
    case BudgetExceeded => BudgetAlert(a.subject, "exceeded")
    case BudgetLow => BudgetAlert(a.subject, "low")
  }

  /** The upcoming and overdue alerts of one debt are throttled together; the exceeded and
      low alerts of one budget are not. */
  lemma ThrottleSharing(a: Alert, b: Alert, sent: map<string, int>, now: int, h: real)
    requires a.subject == b.subject
    ensures IsDebt(a) && IsDebt(b) ==> KeyOf(EmailSubject(a)) == KeyOf(EmailSubject(b))
    ensures a.kind == BudgetExceeded && b.kind == BudgetLow ==>
      CanSend(sent[KeyOf(EmailSubject(a)) := now], KeyOf(EmailSubject(b)), now, h) == CanSend(sent, KeyOf(EmailSubject(b)), now, h)
  {
    if a.kind == BudgetExceeded && b.kind == BudgetLow {
      ThrottleIndependent(sent, EmailSubject(a), EmailSubject(b), now, now, h);
    }
  }

  lemma EmailedAppend(s: seq<Alert>, t: seq<Alert>, on: bool)
    ensures Emailed(s + t, on) == Emailed(s, on) + Emailed(t, on)
  {
    if on {
      Aggregate.FilterAppend(s, t, NotRead);
    }
  }

  lemma DebtStep(debts: seq<DebtItem>, i: nat, p: Preferences, st: Storage, on: bool)
    requires i < |debts|
    ensures DebtAlerts(debts[..i + 1], p, st) == DebtAlerts(debts[..i], p, st) + DebtAlertsOf(debts[i], p, st)
    ensures Emailed(DebtAlerts(debts[..i + 1], p, st), on) ==
      Emailed(DebtAlerts(debts[..i], p, st), on) + Emailed(DebtAlertsOf(debts[i], p, st), on)
  {
    assert debts[..i + 1][..i] == debts[..i];
    EmailedAppend(DebtAlerts(debts[..i], p, st), DebtAlertsOf(debts[i], p, st), on);
  }

  /** The alerts pushed for one debt. */
  method PushDebt(d: DebtItem, p: Preferences, st: Storage) returns (pushed: seq<Alert>)
    ensures pushed == DebtAlertsOf(d, p, st)
  {
    pushed := [];
    if !d.isPaid && d.days.Some? {
      var days := d.days.value;
      if days <= p.debtDaysBefore && days >= 0 {
        var alert := MakeAlert(DebtDue, d.id, if days <= 3 then Danger else Warning, st);
        pushed := pushed + [alert];
      }
      if days < 0 {
        var alert := MakeAlert(DebtOverdue, d.id, Danger, st);
        pushed := pushed + [alert];
      }
    }
  }

  /** The alert pushed for one budget, if any. */
  method PushBudget(b: BudgetItem, st: Storage) returns (pushed: seq<Alert>)
    ensures pushed == Opt(BudgetAlertOf(b, st))
  {
    pushed := [];
    if b.isActive && b.limit.Some? {
      var pct := SpentPercentage(b);
      if AtLeast(pct, 100.0) {
        pushed := [MakeAlert(BudgetExceeded, b.id, Danger, st)];
      } else if AtLeast(pct, Threshold(b)) {
        pushed := [MakeAlert(BudgetLow, b.id, Warning, st)];
      }
    }
  }

  /** The `forEach` over the debts: the alerts pushed, and those handed to the mailer. */
  method CollectDebtAlerts(debts: seq<DebtItem>, p: Preferences, st: Storage, on: bool) returns (found: seq<Alert>, emailed: seq<Alert>)
    ensures found == DebtAlerts(debts, p, st)
    ensures emailed == Emailed(found, on)
  {
    found := [];
    emailed := [];
    var i := 0;
    while i < |debts|
      invariant 0 <= i <= |debts|
      invariant found == DebtAlerts(debts[..i], p, st)
      invariant emailed == Emailed(found, on)
    {
      DebtStep(debts, i, p, st, on);
      var pushed := PushDebt(debts[i], p, st);
      found := found + pushed;
      emailed := emailed + Emailed(pushed, on);
      i := i + 1;
    }
    assert debts[..i] == debts;
  }

  lemma BudgetStep(budgets: seq<BudgetItem>, i: nat, st: Storage, on: bool)
    requires i < |budgets|
    ensures BudgetAlerts(budgets[..i + 1], st) == BudgetAlerts(budgets[..i], st) + Opt(BudgetAlertOf(budgets[i], st))
    ensures Emailed(BudgetAlerts(budgets[..i + 1], st), on) ==
      Emailed(BudgetAlerts(budgets[..i], st), on) + Emailed(Opt(BudgetAlertOf(budgets[i], st)), on)
  {
    assert budgets[..i + 1][..i] == budgets[..i];
    EmailedAppend(BudgetAlerts(budgets[..i], st), Opt(BudgetAlertOf(budgets[i], st)), on);
  }

  /** The `forEach` over the budgets. */
  method CollectBudgetAlerts(budgets: seq<BudgetItem>, st: Storage, on: bool) returns (found: seq<Alert>, emailed: seq<Alert>)
    ensures found == BudgetAlerts(budgets, st)
    ensures emailed == Emailed(found, on)
  {
    found := [];
    emailed := [];
    var i := 0;
    while i < |budgets|
      invariant 0 <= i <= |budgets|
      invariant found == BudgetAlerts(budgets[..i], st)
      invariant emailed == Emailed(found, on)
    {
      BudgetStep(budgets, i, st, on);
      var pushed := PushBudget(budgets[i], st);
      found := found + pushed;
      emailed := emailed + Emailed(pushed, on);
      i := i + 1;
    }
    assert budgets[..i] == budgets;
  }

  function KeysOf(alerts: seq<Alert>): (ks: seq<string>)
    ensures |ks| == |alerts| && forall i :: 0 <= i < |alerts| ==> ks[i] == alerts[i].key
  {
    if alerts == [] then [] else [alerts[0].key] + KeysOf(alerts[1..])
  }

  /** The dismissal map after dismissing each key in turn until the same time. */
  function DismissKeys(dismissed: map<string, int>, keys: seq<string>, until: int): map<string, int> {
    if keys == [] then dismissed
    else DismissKeys(dismissed, keys[..|keys| - 1], until)[keys[|keys| - 1] := until]
  }

  /** The time until which `dismissAlert` hides an alert: `Date.now() + hours * 60 * 60 * 1000`. */
  function DismissedUntil(now: int, hours: int): int {
    now + hours * MillisPerHour
  }

  lemma DismissKeysSnoc(dismissed: map<string, int>, keys: seq<string>, i: nat, until: int)
    requires i < |keys|
    ensures DismissKeys(dismissed, keys[..i + 1], until) == DismissKeys(dismissed, keys[..i], until)[keys[i] := until]
  {
    assert keys[..i + 1][..i] == keys[..i];
  }

  /** Dismissing a list of keys gives each of them the new time, keeps every other key,
      and hides all of them until that time. */
  lemma {:induction false} DismissKeysEffect(dismissed: map<string, int>, keys: seq<string>, until: int, now: int)
    ensures var m := DismissKeys(dismissed, keys, until);
      (forall k :: k in keys ==> k in m && m[k] == until) &&
      (forall k :: k !in keys ==> (k in m <==> k in dismissed) && (k in m ==> m[k] == dismissed[k])) &&
      (until != 0 && now < until ==> forall k :: k in keys ==> IsDismissedIn(m, k, now))
  {
    if keys != [] {
      var init := keys[..|keys| - 1];
      DismissKeysEffect(dismissed, init, until, now);
      assert forall k :: k in keys <==> k in init || k == keys[|keys| - 1];
    }
  }

  /** The alert list after `find` flagged the first alert with the id as dismissed. */
  function DismissFirst(xs: seq<Alert>, key: string): (ys: seq<Alert>)
    ensures |ys| == |xs|
    ensures forall j :: 0 <= j < |xs| ==> ys[j] == if j == FirstWithKey(xs, key) then xs[j].(dismissed := true) else xs[j]
  {
    var i := FirstWithKey(xs, key);
    if i >= 0 then xs[i := xs[i].(dismissed := true)] else xs
  }

  /** The alert list after dismissing each key in turn. */
  function DismissFirstAll(xs: seq<Alert>, keys: seq<string>): (ys: seq<Alert>)
    ensures |ys| == |xs|
  {
    if keys == [] then xs
    else DismissFirst(DismissFirstAll(xs, keys[..|keys| - 1]), keys[|keys| - 1])
  }

  lemma DismissFirstAllSnoc(xs: seq<Alert>, keys: seq<string>, i: nat)
    requires i < |keys|
    ensures DismissFirstAll(xs, keys[..i + 1]) == DismissFirst(DismissFirstAll(xs, keys[..i]), keys[i])
  {
    assert keys[..i + 1][..i] == keys[..i];
  }

  /** Flagging alerts keeps their ids, so `find` picks the same index afterwards. */
  lemma FirstWithKeySameKeys(xs: seq<Alert>, ys: seq<Alert>, key: string)
    requires |ys| == |xs| && forall j :: 0 <= j < |xs| ==> ys[j].key == xs[j].key
    ensures FirstWithKey(ys, key) == FirstWithKey(xs, key)
  {
    var a, b := FirstWithKey(xs, key), FirstWithKey(ys, key);
    if a >= 0 && b >= 0 {
      assert !(a < b) && !(b < a);
    }
  }

  /** Dismissing a list of ids flags, for each id in the list, the first alert carrying
      it, and leaves every other alert as it was. */
  lemma {:induction false} DismissFirstAllEffect(xs: seq<Alert>, keys: seq<string>)
    ensures var ys := DismissFirstAll(xs, keys);
      forall j :: 0 <= j < |xs| ==>
        ys[j] == if xs[j].key in keys && FirstWithKey(xs, xs[j].key) == j then xs[j].(dismissed := true) else xs[j]
  {
    if keys != [] {
      var init, last := keys[..|keys| - 1], keys[|keys| - 1];
      var zs := DismissFirstAll(xs, init);
      DismissFirstAllEffect(xs, init);
      FirstWithKeySameKeys(xs, zs, last);
      assert forall k :: k in keys <==> k in init || k == last;
    }
  }

  /** With distinct ids, dismissing a list of ids leaves no visible alert with any of them. */
  lemma DismissFirstAllHides(xs: seq<Alert>, keys: seq<string>)
    requires DistinctKeys(xs)
    ensures forall a :: a in Visible(DismissFirstAll(xs, keys)) ==> a.key !in keys
  {
    var ys := DismissFirstAll(xs, keys);
    DismissFirstAllEffect(xs, keys);
    forall j | 0 <= j < |xs| && xs[j].key in keys
      ensures ys[j].dismissed
    {
      var f := FirstWithKey(xs, xs[j].key);
      assert f >= 0 && xs[f].key == xs[j].key;
    }
    forall a | a in Visible(ys)
      ensures a.key !in keys
    {
      var j :| 0 <= j < |ys| && ys[j] == a;
    }
  }

  /** The store's state: the alert list, the stored read and dismissed maps, the
      preferences and their stored copy, and the list filter. */
  class Store {
    var alerts: seq<Alert>
    var readMap: map<string, bool>
    var dismissed: map<string, int>
    var preferences: Preferences
    var stored: Stored
    var filterType: string

    constructor (readMap: map<string, bool>, dismissed: map<string, int>, stored: Stored)
      ensures this.alerts == [] && this.readMap == readMap && this.dismissed == dismissed
      ensures this.stored == stored && preferences == LoadPreferences(stored) && filterType == "unread"
    {
      this.alerts := [];
      this.readMap := readMap;
      this.dismissed := dismissed;
      this.stored := stored;
      this.preferences := LoadPreferences(stored);
      this.filterType := "unread";
    }

    /** `pendingAlerts`: the read list when the filter is `read`, the unread list otherwise. */
    function Pending(): (r: seq<Alert>)
      reads this
      ensures forall a :: a in r ==> a in alerts && !a.dismissed
      ensures filterType != "read" ==> r == Unread(alerts, readMap)
    {
      if filterType == "read" then Read(alerts, readMap) else Unread(alerts, readMap)
    }

    /** `alertCount`. */
    function AlertCount(): (n: nat)
      reads this
      ensures n <= |Visible(alerts)|
    {
      ReadPartition(alerts, readMap);
      |Unread(alerts, readMap)|
    }

    /** `setFilter`. */
    method SetFilter(t: string)
      modifies this
      ensures filterType == t && alerts == old(alerts) && readMap == old(readMap) && dismissed == old(dismissed)
      ensures preferences == old(preferences) && stored == old(stored)
    {
      filterType := t;
    }

    /** `checkDebtAlerts`: with debt reminders on, appends each debt's alerts in list
        order and returns the unread ones to be mailed; otherwise does nothing. */
    method CheckDebtAlerts(debts: seq<DebtItem>, now: int, hasEmail: bool) returns (emailed: seq<Alert>)
      modifies this
      ensures readMap == old(readMap) && dismissed == old(dismissed) && filterType == old(filterType)
      ensures preferences == old(preferences) && stored == old(stored)
      ensures var st := Storage(readMap, dismissed, now);
        (!preferences.debtReminders ==> alerts == old(alerts) && emailed == []) &&
        (preferences.debtReminders ==> (alerts == old(alerts) + DebtAlerts(debts, preferences, st) &&
          emailed == Emailed(DebtAlerts(debts, preferences, st), preferences.emailNotifications && hasEmail)))
    {
      emailed := [];
      if !preferences.debtReminders {
        return;
      }
      var found;
      found, emailed := CollectDebtAlerts(debts, preferences, Storage(readMap, dismissed, now), preferences.emailNotifications && hasEmail);
      alerts := alerts + found;
    }

    /** `checkBudgetAlerts`: with budget alerts on, appends each budget's alert in list
        order and returns the unread ones to be mailed; otherwise does nothing. */
    method CheckBudgetAlerts(budgets: seq<BudgetItem>, now: int, hasEmail: bool) returns (emailed: seq<Alert>)
      modifies this
      ensures readMap == old(readMap) && dismissed == old(dismissed) && filterType == old(filterType)
      ensures preferences == old(preferences) && stored == old(stored)
      ensures var st := Storage(readMap, dismissed, now);
        (!preferences.budgetAlerts ==> alerts == old(alerts) && emailed == []) &&
        (preferences.budgetAlerts ==> (alerts == old(alerts) + BudgetAlerts(budgets, st) &&
          emailed == Emailed(BudgetAlerts(budgets, st), preferences.emailNotifications && hasEmail)))
    {
      emailed := [];
      if !preferences.budgetAlerts {
        return;
      }
      var found;
      found, emailed := CollectBudgetAlerts(budgets, Storage(readMap, dismissed, now), preferences.emailNotifications && hasEmail);
      alerts := alerts + found;
    }

    /** `checkAlerts`: the list is rebuilt from scratch, debts first. */
    method CheckAlerts(debts: seq<DebtItem>, budgets: seq<BudgetItem>, now: int, hasEmail: bool) returns (emailed: seq<Alert>)
      modifies this
      ensures readMap == old(readMap) && dismissed == old(dismissed) && preferences == old(preferences)
      ensures var st := Storage(readMap, dismissed, now);
        alerts == (if preferences.debtReminders then DebtAlerts(debts, preferences, st) else []) +
                  (if preferences.budgetAlerts then BudgetAlerts(budgets, st) else [])
      ensures emailed == Emailed(alerts, preferences.emailNotifications && hasEmail)
    {
      ghost var st := Storage(readMap, dismissed, now);
      ghost var mail := preferences.emailNotifications && hasEmail;
      ghost var debtPart := if preferences.debtReminders then DebtAlerts(debts, preferences, st) else [];
      ghost var budgetPart := if preferences.budgetAlerts then BudgetAlerts(budgets, st) else [];
      alerts := [];
      var fromDebts := CheckDebtAlerts(debts, now, hasEmail);
      assert alerts == debtPart && fromDebts == Emailed(debtPart, mail);
      var fromBudgets := CheckBudgetAlerts(budgets, now, hasEmail);
      assert alerts == debtPart + budgetPart && fromBudgets == Emailed(budgetPart, mail);
      emailed := fromDebts + fromBudgets;
      EmailedAppend(debtPart, budgetPart, mail);
    }

    /** `markAsRead`: stores the id as read and flags the first alert with that id. */
    method MarkAsRead(key: string)
      modifies this
      ensures readMap == old(readMap)[key := true]
      ensures dismissed == old(dismissed) && preferences == old(preferences) && filterType == old(filterType)
      ensures Unread(alerts, readMap) == Aggregate.Filter(Unread(old(alerts), old(readMap)), (a: Alert) => a.key != key)
      ensures alerts == MarkFirst(old(alerts), key)
    {
      MarkFirstUnread(alerts, readMap, key);
      readMap := readMap[key := true];
      alerts := MarkFirst(alerts, key);
    }

    /** `dismissAlert`: stores the id as dismissed until `hours` from now and flags the
        first alert with that id. */
    method DismissAlert(key: string, hours: int, now: int)
      modifies this
      ensures dismissed == old(dismissed)[key := DismissedUntil(now, hours)]
      ensures readMap == old(readMap) && preferences == old(preferences) && filterType == old(filterType)
      ensures alerts == DismissFirst(old(alerts), key)
    {
      dismissed := dismissed[key := DismissedUntil(now, hours)];
      var i := FirstWithKey(alerts, key);
      if i >= 0 {
        alerts := alerts[i := alerts[i].(dismissed := true)];
      }
    }

    /** `dismissAllAlerts`: dismisses every alert of the current list for `hours`. */
    method DismissAll(hours: int, now: int)
      modifies this
      ensures dismissed == DismissKeys(old(dismissed), KeysOf(old(Pending())), DismissedUntil(now, hours))
      ensures readMap == old(readMap) && preferences == old(preferences) && filterType == old(filterType)
      ensures alerts == DismissFirstAll(old(alerts), KeysOf(old(Pending())))
    {
      var keys := KeysOf(Pending());
      var i := 0;
      while i < |keys|
        invariant 0 <= i <= |keys|
        invariant dismissed == DismissKeys(old(dismissed), keys[..i], DismissedUntil(now, hours))
        invariant readMap == old(readMap) && preferences == old(preferences) && filterType == old(filterType)
        invariant alerts == DismissFirstAll(old(alerts), keys[..i])
      {
        DismissKeysSnoc(old(dismissed), keys, i, DismissedUntil(now, hours));
        DismissFirstAllSnoc(old(alerts), keys, i);
        DismissAlert(keys[i], hours, now);
        i := i + 1;
      }
      assert keys[..i] == keys;
    }

    /** `updatePreferences`: merges the changes and stores the result. */
    method UpdatePreferences(patch: Patch)
      modifies this
      ensures preferences == Merge(old(preferences), patch) && stored == Saved(Full(preferences))
      ensures LoadPreferences(stored) == preferences
      ensures alerts == old(alerts) && readMap == old(readMap) && dismissed == old(dismissed)
    {
      preferences := Merge(preferences, patch);
      stored := Saved(Full(preferences));
      SaveThenLoad(preferences);
    }

    /** `clearAlerts`. */
    method ClearAlerts()
      modifies this
      ensures alerts == [] && readMap == old(readMap) && dismissed == old(dismissed) && preferences == old(preferences)
    {
      alerts := [];
    }
  }

  /** `sendEmailForAlert`: a debt alert sends the debt reminder, a budget alert the budget
      alert of its type. */
  method SendEmailForAlert(outbox: Outbox, a: Alert, now: int, delivered: bool) returns (r: SendResult)
    modifies outbox
    ensures var key := KeyOf(EmailSubject(a));
      (!CanSend(old(outbox.sent), key, now, 24.0) ==> r == AlreadySent && outbox.sent == old(outbox.sent)) &&
      (CanSend(old(outbox.sent), key, now, 24.0) && delivered ==> r == Sent && outbox.sent == old(outbox.sent)[key := now]) &&
      (CanSend(old(outbox.sent), key, now, 24.0) && !delivered ==> r == Failed && outbox.sent == old(outbox.sent))
  {
    if IsDebt(a) {
      r := outbox.SendDebtReminder(a.subject, now, delivered);
    } else {
      r := outbox.SendBudgetAlert(a.subject, if a.kind == BudgetExceeded then "exceeded" else "low", now, delivered);
    }
  }
}
