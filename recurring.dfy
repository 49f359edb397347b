/** Recurring transactions: the template row, its creation default, the
    next-date rule of `calculate_next_date`, and the `process_recurring` command
    that posts one occurrence per due template into the ledger. */
module Recurring {
  import opened Common
  import opened Dates
  import opened Ledger
  import Aggregate

  /** `frequency`: 'diaria', 'semanal', 'quincenal', 'mensual', 'anual', or an unlisted value. */
  datatype Frequency = Daily | Weekly | Fortnightly | Monthly | Yearly | UnlistedFrequency(code: string)

  /** A `RecurringTransaction` row (description left out). */
  datatype Template = Template(
    user: UserId,
    kind: Kind,
    amount: int,
    account: AccountId,
    destination: Option<AccountId>,
    category: Option<CategoryId>,
    frequency: Frequency,
    startDate: CalendarDate,
    nextExecution: CalendarDate,
    endDate: Option<CalendarDate>,
    isActive: bool,
    lastExecuted: Option<CalendarDate>)

  /** `RecurringTransactionSerializer.create`: without a `next_execution` the template
      first runs on its start date; it belongs to the requesting user. */
  function NewTemplate(user: UserId, kind: Kind, amount: int, account: AccountId, destination: Option<AccountId>,
                       category: Option<CategoryId>, frequency: Frequency, startDate: CalendarDate,
                       nextExecution: Option<CalendarDate>, endDate: Option<CalendarDate>, isActive: bool): (t: Template)
    ensures t.user == user && t.startDate == startDate && t.lastExecuted.None?
    ensures t.nextExecution == if nextExecution.Some? then nextExecution.value else startDate
  {
    Template(user, kind, amount, account, destination, category, frequency, startDate,
             nextExecution.GetOr(startDate), endDate, isActive, None)
  }

  // ---------------------------------------------------------------------
  // calculate_next_date

  /** `current_date.replace(year=current_date.year + 1)` as written: `replace` raises
      `ValueError` (`None` here) when the day does not exist in the target year. */
  function NextDateAsWritten(d: CalendarDate, f: Frequency): (r: Option<CalendarDate>)
    ensures r.None? <==> f == Yearly && d.month == 2 && d.day == 29
  {
    match f
    case Daily => Some(AddDays(d, 1))
    case Weekly => Some(AddDays(d, 7))
    case Fortnightly => Some(AddDays(d, 15))
    case Monthly => Some(NextMonthClamped(d))
    case Yearly =>
      if d.day <= DaysInMonth(d.year + 1, d.month) then
        var r: CalendarDate := Date(d.year + 1, d.month, d.day);
        Some(r)
      else None
    case UnlistedFrequency(_) => Some(d)
  }

  /** The monthly rule: the next calendar month, December rolling over to January,
      with the day capped at 28 so that it exists in every month. */
  function NextMonthClamped(d: CalendarDate): (r: CalendarDate)
    ensures r.day == if d.day <= 28 then d.day else 28
    ensures r.month == (if d.month == 12 then 1 else d.month + 1)
    ensures r.year == (if d.month == 12 then d.year + 1 else d.year)
  {
    var month := if d.month + 1 > 12 then 1 else d.month + 1;
    var year := if d.month + 1 > 12 then d.year + 1 else d.year;
    Date(year, month, if d.day <= 28 then d.day else 28)
  }

  /** A yearly template dated 29 February makes the command raise. */
  lemma LeapDayYearlyFails()
    ensures NextDateAsWritten(Date(2024, 2, 29), Yearly).None?
  {
  }

  /** `calculate_next_date` with the yearly step landing on the last day of February
      when the date is 29 February, so that every frequency yields a date. */
  function NextDate(d: CalendarDate, f: Frequency): (r: CalendarDate)
    ensures NextDateAsWritten(d, f).Some? ==> r == NextDateAsWritten(d, f).value
  {
    match f
    case Yearly =>
      var day := if d.day <= DaysInMonth(d.year + 1, d.month) then d.day else DaysInMonth(d.year + 1, d.month);
      Date(d.year + 1, d.month, day)
    case _ => NextDateAsWritten(d, f).value
  }

  /** Daily, weekly and fortnightly move the day number by 1, 7 and 15. */
  lemma FixedStepOrdinal(d: CalendarDate, f: Frequency)
    requires f == Daily || f == Weekly || f == Fortnightly
    ensures Ordinal(NextDate(d, f)) == Ordinal(d) + (if f == Daily then 1 else if f == Weekly then 7 else 15)
  {
    AddDaysOrdinal(d, if f == Daily then 1 else if f == Weekly then 7 else 15);
  }

  /** Yearly keeps month and day, one year on, except 29 February, which becomes
      the 28th in a common year. */
  lemma YearlyStep(d: CalendarDate)
    ensures NextDate(d, Yearly).year == d.year + 1 && NextDate(d, Yearly).month == d.month
    ensures NextDate(d, Yearly).day == if d.month == 2 && d.day == 29 && !IsLeap(d.year + 1) then 28 else d.day
  {
  }

  /** Every listed frequency moves strictly forward; an unlisted one leaves the date as it is. */
  lemma NextDateAdvances(d: CalendarDate, f: Frequency)
    ensures f.UnlistedFrequency? ==> NextDate(d, f) == d
    ensures !f.UnlistedFrequency? ==> Lt(d, NextDate(d, f))
  {
    match f {
      case Daily => FixedStepOrdinal(d, f);
      case Weekly => FixedStepOrdinal(d, f);
      case Fortnightly => FixedStepOrdinal(d, f);
      case Monthly => LexicographicOrder(d, NextDate(d, f));
      case Yearly => LexicographicOrder(d, NextDate(d, f));
      case UnlistedFrequency(_) =>
    }
  }

  // ---------------------------------------------------------------------
  // process_recurring

  /** The queryset: active templates whose next run is today or earlier. */
  predicate Due(t: Template, today: CalendarDate) {
    t.isActive && Le(t.nextExecution, today)
  }

  /** A due template whose end date has passed (an end date of today still runs). */
  predicate Expired(t: Template, today: CalendarDate) {
    t.endDate.Some? && Lt(t.endDate.value, today)
  }

  predicate Fires(t: Template, today: CalendarDate) {
    Due(t, today) && !Expired(t, today)
  }

  /** The transaction a firing template creates: dated at its next execution, flagged recurring. */
  function Occurrence(t: Template): (e: Entry)
    ensures e.date == t.nextExecution && e.isRecurring && e.relatedBet.None?
    ensures e.kind == t.kind && e.amount == t.amount && e.account == t.account
    ensures e.destination == t.destination && e.category == t.category && e.user == t.user
  {
    Entry(t.user, t.kind, t.amount, t.nextExecution, t.account, t.destination, t.category, true, false, None)
  }

  /** The template row after the command has seen it. */
  function Step(t: Template, today: CalendarDate): Template {
    if !Due(t, today) then t
    else if Expired(t, today) then t.(isActive := false)
    else t.(lastExecuted := Some(t.nextExecution), nextExecution := NextDate(t.nextExecution, t.frequency))
  }

  /** A template that fires records the date it ran and, for a listed frequency, moves
      strictly forward; a deactivated template is never due again. */
  lemma StepProgress(t: Template, today: CalendarDate)
    ensures Fires(t, today) ==> Step(t, today).lastExecuted == Some(t.nextExecution)
    ensures Fires(t, today) && !t.frequency.UnlistedFrequency? ==>
      Lt(t.nextExecution, Step(t, today).nextExecution)
    ensures Due(t, today) && Expired(t, today) ==>
      !Step(t, today).isActive && forall later :: !Due(Step(t, today), later)
    ensures !Due(t, today) ==> Step(t, today) == t
  {
    NextDateAdvances(t.nextExecution, t.frequency);
  }

  /** The occurrences the command creates, in template order. */
  function Generated(ts: seq<Template>, today: CalendarDate): (es: seq<Entry>)
    ensures |es| <= |ts|
  {
    if ts == [] then []
    else
      var t := ts[|ts| - 1];
      Generated(ts[..|ts| - 1], today) + (if Fires(t, today) then [Occurrence(t)] else [])
  }

  /** Exactly the firing templates create an occurrence: the count is theirs. */
  lemma {:induction false} GeneratedCount(ts: seq<Template>, today: CalendarDate)
    ensures |Generated(ts, today)| == Aggregate.Count(ts, (t: Template) => Fires(t, today))
  {
    if ts != [] {
      var init := ts[..|ts| - 1];
      GeneratedCount(init, today);
      assert ts == init + [ts[|ts| - 1]];
      Aggregate.FilterAppend(init, [ts[|ts| - 1]], (t: Template) => Fires(t, today));
    }
  }

  lemma GeneratedSnoc(ts: seq<Template>, i: nat, today: CalendarDate)
    requires i < |ts|
    ensures Generated(ts[..i + 1], today) ==
      Generated(ts[..i], today) + (if Fires(ts[i], today) then [Occurrence(ts[i])] else [])
  {
    assert ts[..i + 1][..i] == ts[..i];
  }

  /** The order the command's queryset yields: `ordering = ['next_execution']`, ties in
      any order. */
  predicate QueryOrdered(ts: seq<Template>) {
    forall i, j :: 0 <= i < j < |ts| ==> Le(ts[i].nextExecution, ts[j].nextExecution)
  }

  /** Every occurrence is created by a firing template that runs no later than the last one. */
  lemma {:induction false} GeneratedFrom(ts: seq<Template>, today: CalendarDate)
    ensures forall e :: e in Generated(ts, today) ==>
      exists k :: 0 <= k < |ts| && Fires(ts[k], today) && e == Occurrence(ts[k])
  {
    if ts != [] {
      var init := ts[..|ts| - 1];
      GeneratedFrom(init, today);
      forall e | e in Generated(ts, today)
        ensures exists k :: 0 <= k < |ts| && Fires(ts[k], today) && e == Occurrence(ts[k])
      {
        if e in Generated(init, today) {
          var k :| 0 <= k < |init| && Fires(init[k], today) && e == Occurrence(init[k]);
          assert ts[k] == init[k];
        } else {
          assert Fires(ts[|ts| - 1], today) && e == Occurrence(ts[|ts| - 1]);
        }
      }
    }
  }

  /** Every occurrence of the earlier templates is dated no later than a later template's run. */
  lemma GeneratedNotAfter(ts: seq<Template>, today: CalendarDate, t: Template)
    requires forall k :: 0 <= k < |ts| ==> Le(ts[k].nextExecution, t.nextExecution)
    ensures forall e :: e in Generated(ts, today) ==> Le(e.date, t.nextExecution)
  {
    GeneratedFrom(ts, today);
    forall e | e in Generated(ts, today)
      ensures Le(e.date, t.nextExecution)
    {
      var k :| 0 <= k < |ts| && Fires(ts[k], today) && e == Occurrence(ts[k]);
    }
  }

  predicate DatedInOrder(es: seq<Entry>) {
    forall i, j :: 0 <= i < j < |es| ==> Le(es[i].date, es[j].date)
  }

  lemma DatedInOrderSnoc(es: seq<Entry>, e: Entry)
    requires DatedInOrder(es) && forall x :: x in es ==> Le(x.date, e.date)
    ensures DatedInOrder(es + [e])
  {
    var r := es + [e];
    forall i, j | 0 <= i < j < |r|
      ensures Le(r[i].date, r[j].date)
    {
      assert r[i] == es[i];
      if j < |es| {
        assert r[j] == es[j];
      } else {
        assert es[i] in es;
      }
    }
  }

  /** Run in queryset order, the command creates its occurrences in date order. */
  lemma {:induction false} GeneratedInDateOrder(ts: seq<Template>, today: CalendarDate)
    requires QueryOrdered(ts)
    ensures DatedInOrder(Generated(ts, today))
  {
    if ts != [] {
      var init := ts[..|ts| - 1];
      var t := ts[|ts| - 1];
      assert QueryOrdered(init);
      GeneratedInDateOrder(init, today);
      if Fires(t, today) {
        GeneratedNotAfter(init, today, t);
        DatedInOrderSnoc(Generated(init, today), Occurrence(t));
      } else {
        assert Generated(ts, today) == Generated(init, today) + [];
      }
    }
  }

  predicate RefsKnown(ts: seq<Template>, keys: set<AccountId>) {
    forall i :: 0 <= i < |ts| ==> Refs(Occurrence(ts[i])) <= keys
  }

  lemma {:induction false} GeneratedRefs(ts: seq<Template>, today: CalendarDate, keys: set<AccountId>)
    requires RefsKnown(ts, keys)
    ensures AllRefsIn(Generated(ts, today), keys)
  {
    if ts != [] {
      GeneratedRefs(ts[..|ts| - 1], today, keys);
    }
  }

  /** The ledger holds its starting rows plus `es` and its starting balances with `es` applied. */
  ghost predicate Posted(ledger: Ledger, entries0: seq<Entry>, balances0: Balances, opening0: Balances,
                         consistent0: bool, es: seq<Entry>)
    reads ledger
  {
    && ledger.Valid() && ledger.opening == opening0
    && ledger.balances.Keys == balances0.Keys
    && AllRefsIn(es, balances0.Keys)
    && ledger.Entries() == entries0 + es
    && ledger.balances == ApplyAll(balances0, es)
    && (consistent0 ==> ledger.Consistent())
  }

  /** One pass of the loop of `Command.handle` on the `i`-th template: an expired
      template is deactivated; any other due template creates its occurrence through
      the ledger and moves its schedule on. */
  method RunTemplate(rec: Template, ledger: Ledger, today: CalendarDate, ghost ts: seq<Template>, ghost i: nat,
                     ghost entries0: seq<Entry>, ghost balances0: Balances, ghost opening0: Balances,
                     ghost consistent0: bool) returns (updated: Template, fired: bool)
    requires i < |ts| && rec == ts[i] && RefsKnown(ts, balances0.Keys)
    requires Posted(ledger, entries0, balances0, opening0, consistent0, Generated(ts[..i], today))
    modifies ledger
    ensures updated == Step(rec, today) && fired == Fires(rec, today)
    ensures Posted(ledger, entries0, balances0, opening0, consistent0, Generated(ts[..i + 1], today))
    ensures |Generated(ts[..i + 1], today)| == |Generated(ts[..i], today)| + (if fired then 1 else 0)
  {
    ghost var es := Generated(ts[..i], today);
    GeneratedSnoc(ts, i, today);
    assert Refs(Occurrence(rec)) <= balances0.Keys;
    updated, fired := rec, false;
    if Due(rec, today) {
      if Expired(rec, today) {
        updated := rec.(isActive := false);
      } else {
        ApplyAllSnoc(balances0, es, Occurrence(rec));
        var id := ledger.Create(Occurrence(rec));
        Aggregate.SnocAssoc(entries0, es, Occurrence(rec));
        assert ledger.Entries() == entries0 + (es + [Occurrence(rec)]);
        updated := rec.(lastExecuted := Some(rec.nextExecution),
                        nextExecution := NextDate(rec.nextExecution, rec.frequency));
        fired := true;
      }
    }
    if !fired {
      assert es + [] == es;
    }
  }

  /** The first `i` templates have been run, the rest are as they were. */
  predicate StepsDone(cur: seq<Template>, ts: seq<Template>, i: nat, today: CalendarDate) {
    && |cur| == |ts| && i <= |ts|
    && (forall k :: 0 <= k < i ==> cur[k] == Step(ts[k], today))
    && (forall k :: i <= k < |ts| ==> cur[k] == ts[k])
  }

  lemma StepsDoneNext(cur: seq<Template>, ts: seq<Template>, i: nat, today: CalendarDate)
    requires StepsDone(cur, ts, i, today) && i < |ts|
    ensures StepsDone(cur[i := Step(ts[i], today)], ts, i + 1, today)
  {
  }

  /** `Command.handle`: runs every template in queryset order (earliest next run first)
      and counts the occurrences created, which come out in date order. */
  method ProcessRecurring(templates: array<Template>, ledger: Ledger, today: CalendarDate) returns (processed: nat)
    requires ledger.Valid() && RefsKnown(templates[..], ledger.balances.Keys)
    requires QueryOrdered(templates[..])
    modifies templates, ledger
    ensures ledger.Valid() && ledger.opening == old(ledger.opening)
    ensures forall i :: 0 <= i < templates.Length ==> templates[i] == Step(old(templates[i]), today)
    ensures ledger.Entries() == old(ledger.Entries()) + Generated(old(templates[..]), today)
    ensures AllRefsIn(Generated(old(templates[..]), today), old(ledger.balances.Keys)) &&
            ledger.balances == ApplyAll(old(ledger.balances), Generated(old(templates[..]), today))
    ensures processed == |Generated(old(templates[..]), today)|
    ensures DatedInOrder(Generated(old(templates[..]), today))
    ensures old(ledger.Consistent()) ==> ledger.Consistent()
  {
    ghost var ts := templates[..];
    GeneratedInDateOrder(ts, today);
    ghost var entries0 := ledger.Entries();
    ghost var balances0 := ledger.balances;
    ghost var opening0 := ledger.opening;
    ghost var consistent0 := ledger.Consistent();
    assert ts[..0] == [];
    assert Posted(ledger, entries0, balances0, opening0, consistent0, []);
    processed := 0;
    var i := 0;
    while i < templates.Length
      invariant 0 <= i <= templates.Length
      invariant StepsDone(templates[..], ts, i, today)
      invariant Posted(ledger, entries0, balances0, opening0, consistent0, Generated(ts[..i], today))
      invariant processed == |Generated(ts[..i], today)|
    {
      StepsDoneNext(templates[..], ts, i, today);
      var updated, fired := RunTemplate(templates[i], ledger, today, ts, i, entries0, balances0, opening0, consistent0);
      templates[i] := updated;
      if fired {
        processed := processed + 1;
      }
      i := i + 1;
    }
    assert ts[..i] == ts;
  }

  // ---------------------------------------------------------------------
  // The stale account copies of the command

  /** The balances the command writes as the code runs it.  The queryset loads every
      template with `select_related('account', 'destination_account')`, so each template
      carries its own copy of its accounts, read before the loop; creating the occurrence
      adds to that copy and saves it.  The last occurrence to touch an account wins. */
  function StaleRun(snapshot: Balances, es: seq<Entry>): (r: Balances)
    requires AllRefsIn(es, snapshot.Keys)
    ensures r.Keys == snapshot.Keys
  {
    if es == [] then snapshot
    else
      var before := StaleRun(snapshot, es[..|es| - 1]);
      var last := es[|es| - 1];
      var written := Apply(snapshot, last);
      map a | a in snapshot :: if a in Touched(last) then written[a] else before[a]
  }

  /** An account touched by the last occurrence ends with the snapshot plus that
      occurrence alone: every earlier occurrence on it is lost. */
  lemma StaleRunLastWins(snapshot: Balances, es: seq<Entry>, a: AccountId)
    requires AllRefsIn(es, snapshot.Keys) && a in snapshot
    requires es != [] && a in Touched(es[|es| - 1])
    ensures StaleRun(snapshot, es)[a] == snapshot[a] + Delta(es[|es| - 1], a)
  {
    ApplyEffect(snapshot, es[|es| - 1]);
  }

  /** Two due incomes of 100 on one account holding 0: the account should end at 200,
      the command leaves it at 100. */
  lemma StaleRunExample()
    ensures var t := Template(1, Income, 100, 5, None, None, Monthly, Date(2024, 1, 1), Date(2024, 3, 1),
                              None, true, None);
      var es := Generated([t, t], Date(2024, 3, 1));
      es == [Occurrence(t), Occurrence(t)] &&
      ApplyAll(map[5 := 0], es) == map[5 := 200] &&
      StaleRun(map[5 := 0], es) == map[5 := 100]
  {
    var t := Template(1, Income, 100, 5, None, None, Monthly, Date(2024, 1, 1), Date(2024, 3, 1),
                      None, true, None);
    var today := Date(2024, 3, 1);
    assert Fires(t, today);
    TwiceGenerated(t, today);
    TwoIncomes(Occurrence(t));
  }

  lemma TwiceGenerated(t: Template, today: CalendarDate)
    requires Fires(t, today)
    ensures Generated([t, t], today) == [Occurrence(t), Occurrence(t)]
  {
    assert [t][..0] == [];
    assert Generated([t], today) == [Occurrence(t)];
    assert [t, t][..1] == [t];
  }

  lemma TwoIncomes(o: Entry)
    requires o.kind == Income && o.account == 5 && o.amount == 100 && o.destination.None?
    ensures ApplyAll(map[5 := 0], [o, o]) == map[5 := 200]
    ensures StaleRun(map[5 := 0], [o, o]) == map[5 := 100]
  {
    assert [o, o][..1] == [o] && [o][..0] == [];
    assert ApplyAll(map[5 := 0], [o]) == map[5 := 100];
    assert StaleRun(map[5 := 0], [o]) == map[5 := 100];
  }
}
