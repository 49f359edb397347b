/** The e-mail side of the notifications: the per-subject rate limiter kept in
    browser storage, the two senders that consult it, and the stored notification
    preferences.  Storage is a map from keys to the millisecond time of the last
    send; whether the mail provider accepts a message is an input. */
module Email {
  import opened Common
  import opened Text

  /** What an e-mail is about: a debt reminder, or a budget alert of a given type. */
  datatype Subject = DebtReminder(debt: nat) | BudgetAlert(budget: nat, alertType: string)

  /** `getLastSentKey(type, id)`. */
  function LastSentKey(kind: string, id: string): string {
    "email_last_sent_" + kind + "_" + id
  }

  /** The type and id the two senders pass: `debt_{id}`, and `budget_{id}_{alertType}`. */
  function KeyOf(s: Subject): string {
    match s
    case DebtReminder(d) => LastSentKey("debt", "debt_" + NatString(d))
    case BudgetAlert(b, t) => LastSentKey("budget", "budget_" + NatString(b) + "_" + t)
  }

  lemma DropPrefix(p: string, x: string, y: string)
    requires p + x == p + y
    ensures x == y
  {
    assert x == (p + x)[|p|..];
    assert y == (p + y)[|p|..];
  }

  lemma DebtKeyInjective(a: nat, b: nat)
    requires KeyOf(DebtReminder(a)) == KeyOf(DebtReminder(b))
    ensures a == b
  {
    var p := "email_last_sent_debt_debt_";
    assert KeyOf(DebtReminder(a)) == p + NatString(a);
    assert KeyOf(DebtReminder(b)) == p + NatString(b);
    DropPrefix(p, NatString(a), NatString(b));
    NatStringInjective(a, b);
  }

  lemma BudgetKeyShape(a: nat, x: string)
    ensures KeyOf(BudgetAlert(a, x)) == "email_last_sent_budget_budget_" + (NatString(a) + "_" + x)
  {
    var n := NatString(a);
    assert "email_last_sent_" + "budget" + "_" + ("budget_" + n + "_" + x) ==
      "email_last_sent_budget_budget_" + (n + "_" + x);
  }

  lemma BudgetKeyInjective(a: nat, x: string, b: nat, y: string)
    requires KeyOf(BudgetAlert(a, x)) == KeyOf(BudgetAlert(b, y))
    ensures a == b && x == y
  {
    var p := "email_last_sent_budget_budget_";
    BudgetKeyShape(a, x);
    BudgetKeyShape(b, y);
    DropPrefix(p, NatString(a) + "_" + x, NatString(b) + "_" + y);
    DigitPrefixUnique(NatString(a), NatString(b), '_', x, y);
    NatStringInjective(a, b);
  }

  lemma KindsDiffer(a: nat, b: nat, y: string)
    ensures KeyOf(DebtReminder(a)) != KeyOf(BudgetAlert(b, y))
  {
    var k := KeyOf(DebtReminder(a));
    var l := KeyOf(BudgetAlert(b, y));
    assert k == "email_last_sent_debt_" + ("debt_" + NatString(a));
    assert l == "email_last_sent_budget_" + ("budget_" + NatString(b) + "_" + y);
    assert k[16] == 'd';
    assert l[16] == 'b';
  }

  /** Two different subjects never share a storage key, so each is throttled on its own. */
  lemma KeyInjective(s: Subject, t: Subject)
    requires KeyOf(s) == KeyOf(t)
    ensures s == t
  {
    match s {
      case DebtReminder(a) =>
        match t {
          case DebtReminder(b) => DebtKeyInjective(a, b);
          case BudgetAlert(b, y) => KindsDiffer(a, b, y);
        }
      case BudgetAlert(a, x) =>
        match t {
          case DebtReminder(b) => KindsDiffer(b, a, x);
          case BudgetAlert(b, y) => BudgetKeyInjective(a, x, b, y);
        }
    }
  }

  const MillisPerHour := 3600000

  /** `canSendEmail`: nothing recorded, or at least `hoursLimit` hours since the last send. */
  function CanSend(sent: map<string, int>, key: string, now: int, hoursLimit: real): (r: bool)
    ensures key !in sent ==> r
    ensures key in sent ==> (r <==> (now - sent[key]) as real >= hoursLimit * MillisPerHour as real)
  {
    key !in sent || (now - sent[key]) as real / MillisPerHour as real >= hoursLimit
  }

  /** Right after a send is recorded, the same key is throttled for any positive limit,
      and it opens again exactly when the limit has elapsed. */
  lemma ThrottledAfterSend(sent: map<string, int>, key: string, sentAt: int, now: int, hoursLimit: real)
    ensures hoursLimit > 0.0 ==> !CanSend(sent[key := sentAt], key, sentAt, hoursLimit)
    ensures CanSend(sent[key := sentAt], key, now, hoursLimit) <==>
      now as real >= sentAt as real + hoursLimit * MillisPerHour as real
  {
  }

  /** Recording a send for one subject does not throttle another: a budget's `exceeded`
      and `low` alerts are limited independently. */
  lemma ThrottleIndependent(sent: map<string, int>, s: Subject, t: Subject, sentAt: int, now: int, hoursLimit: real)
    requires s != t
    ensures CanSend(sent[KeyOf(s) := sentAt], KeyOf(t), now, hoursLimit) == CanSend(sent, KeyOf(t), now, hoursLimit)
  {
    if KeyOf(s) == KeyOf(t) {
      KeyInjective(s, t);
    }
  }

  /** The outcome the senders report. */
  datatype SendResult = Sent | AlreadySent | Failed

  /** The browser storage as the rate limiter sees it. */
  class Outbox {
    var sent: map<string, int>

    constructor (stored: map<string, int>)
      ensures sent == stored
    {
      sent := stored;
    }

    /** `markEmailSent`: records the current time under the subject's key. */
    method MarkEmailSent(key: string, now: int)
      modifies this
      ensures sent == old(sent)[key := now]
    {
      sent := sent[key := now];
    }

    /** `sendDebtReminder`: a throttled reminder reports `already_sent` and sends nothing;
        a send is recorded only when the provider accepted it. */
    method SendDebtReminder(debt: nat, now: int, delivered: bool) returns (r: SendResult)
      modifies this
      ensures var key := KeyOf(DebtReminder(debt));
        (!CanSend(old(sent), key, now, 24.0) ==> r == AlreadySent && sent == old(sent)) &&
        (CanSend(old(sent), key, now, 24.0) && delivered ==> r == Sent && sent == old(sent)[key := now]) &&
        (CanSend(old(sent), key, now, 24.0) && !delivered ==> r == Failed && sent == old(sent))
    {
      var key := LastSentKey("debt", "debt_" + NatString(debt));
      if !CanSend(sent, key, now, 24.0) {
        return AlreadySent;
      }
      if delivered {
        MarkEmailSent(key, now);
        r := Sent;
      } else {
        r := Failed;
      }
    }

    /** `sendBudgetAlert`: as `SendDebtReminder`, keyed by budget and alert type. */
    method SendBudgetAlert(budget: nat, alertType: string, now: int, delivered: bool) returns (r: SendResult)
      modifies this
      ensures var key := KeyOf(BudgetAlert(budget, alertType));
        (!CanSend(old(sent), key, now, 24.0) ==> r == AlreadySent && sent == old(sent)) &&
        (CanSend(old(sent), key, now, 24.0) && delivered ==> r == Sent && sent == old(sent)[key := now]) &&
        (CanSend(old(sent), key, now, 24.0) && !delivered ==> r == Failed && sent == old(sent))
    {
      var key := LastSentKey("budget", "budget_" + NatString(budget) + "_" + alertType);
      if !CanSend(sent, key, now, 24.0) {
        return AlreadySent;
      }
      if delivered {
        MarkEmailSent(key, now);
        r := Sent;
      } else {
        r := Failed;
      }
    }
  }

  /** The four notification preferences. */
  datatype Preferences = Preferences(emailNotifications: bool, debtReminders: bool, debtDaysBefore: int, budgetAlerts: bool)

  const Defaults := Preferences(true, true, 7, true)

  /** A JSON object holding some of the preference keys. */
  datatype Patch = Patch(
    emailNotifications: Option<bool>, debtReminders: Option<bool>,
    debtDaysBefore: Option<int>, budgetAlerts: Option<bool>)

  /** `{ ...p, ...q }`: each key present in `q` overrides the one in `p`. */
  function Merge(p: Preferences, q: Patch): Preferences {
    Preferences(
      q.emailNotifications.GetOr(p.emailNotifications),
      q.debtReminders.GetOr(p.debtReminders),
      q.debtDaysBefore.GetOr(p.debtDaysBefore),
      q.budgetAlerts.GetOr(p.budgetAlerts))
  }

  /** `JSON.stringify(preferences)`: every key is written. */
  function Full(p: Preferences): Patch {
    Patch(Some(p.emailNotifications), Some(p.debtReminders), Some(p.debtDaysBefore), Some(p.budgetAlerts))
  }

  /** The stored preferences: absent, not parseable, or a parsed object. */
  datatype Stored = Missing | Unreadable | Saved(patch: Patch)

  /** `getNotificationPreferences`. */
  function LoadPreferences(stored: Stored): (p: Preferences)
    ensures !stored.Saved? ==> p == Defaults
    ensures stored.Saved? && stored.patch.debtDaysBefore.None? ==> p.debtDaysBefore == 7
    ensures stored.Saved? && stored.patch.debtDaysBefore.Some? ==> p.debtDaysBefore == stored.patch.debtDaysBefore.value
  {
    if stored.Saved? then Merge(Defaults, stored.patch) else Defaults
  }

  /** Saving preferences and loading them again gives the same preferences. */
  lemma SaveThenLoad(p: Preferences)
    ensures LoadPreferences(Saved(Full(p))) == p
  {
  }

  /** An empty object changes nothing; merging two updates in turn is merging their union,
      the later one winning. */
  lemma MergeLaws(p: Preferences, a: Patch, b: Patch)
    ensures Merge(p, Patch(None, None, None, None)) == p
    ensures Merge(Merge(p, a), b) == Merge(p, Patch(
      if b.emailNotifications.Some? then b.emailNotifications else a.emailNotifications,
      if b.debtReminders.Some? then b.debtReminders else a.debtReminders,
      if b.debtDaysBefore.Some? then b.debtDaysBefore else a.debtDaysBefore,
      if b.budgetAlerts.Some? then b.budgetAlerts else a.budgetAlerts))
  {
  }
}
