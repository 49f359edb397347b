/** Calendar dates as the backend's `datetime.date` handles them: the proleptic
    Gregorian calendar, day arithmetic through `timedelta`, `replace`, and the
    ordinal day number that Python's `toordinal()` returns (0001-01-01 is day 1). */
module Dates {

  datatype Date = Date(year: int, month: int, day: int) {
    ghost predicate Valid() {
      1 <= month <= 12 && 1 <= day <= DaysInMonth(year, month)
    }
  }

  /** A date that exists in the calendar. */
  type CalendarDate = d: Date | d.Valid() witness Date(1, 1, 1)

  predicate IsLeap(y: int) {
    y % 4 == 0 && (y % 100 != 0 || y % 400 == 0)
  }

  function DaysInMonth(y: int, m: int): (n: int)
    requires 1 <= m <= 12
    ensures 28 <= n <= 31
    ensures n == 29 <==> m == 2 && IsLeap(y)
  {
    if m == 2 then (if IsLeap(y) then 29 else 28)
    else if m == 4 || m == 6 || m == 9 || m == 11 then 30
    else 31
  }

  function YearLength(y: int): int {
    if IsLeap(y) then 366 else 365
  }

  /** Days in the years before `y`, counted from 0001-01-01 (negative before year 1). */
  function DaysBeforeYear(y: int): int {
    var p := y - 1;
    365 * p + p / 4 - p / 100 + p / 400
  }

  /** Days in the months of year `y` before month `m`. */
  function DaysBeforeMonth(y: int, m: int): int
    requires 1 <= m <= 12
  {
    var cumulative := [0, 31, 59, 90, 120, 151, 181, 212, 243, 273, 304, 334];
    cumulative[m - 1] + (if m > 2 && IsLeap(y) then 1 else 0)
  }

  /** Python's `date.toordinal()`. */
  function Ordinal(d: CalendarDate): int {
    DaysBeforeYear(d.year) + DaysBeforeMonth(d.year, d.month) + d.day
  }

  /** Python's `date.weekday()`: Monday is 0, Sunday is 6. */
  function Weekday(d: CalendarDate): (w: int)
    ensures 0 <= w < 7
  {
    (Ordinal(d) + 6) % 7
  }

  /** Date comparison, as Python compares dates. */
  predicate Le(a: CalendarDate, b: CalendarDate) {
    Ordinal(a) <= Ordinal(b)
  }

  predicate Lt(a: CalendarDate, b: CalendarDate) {
    Ordinal(a) < Ordinal(b)
  }

  function Min(a: CalendarDate, b: CalendarDate): (r: CalendarDate)
    ensures Le(r, a) && Le(r, b) && (r == a || r == b)
  {
    if Le(a, b) then a else b
  }

  /** `d + timedelta(days=1)`. */
  function Next(d: CalendarDate): CalendarDate {
    if d.day < DaysInMonth(d.year, d.month) then Date(d.year, d.month, d.day + 1)
    else if d.month < 12 then Date(d.year, d.month + 1, 1)
    else Date(d.year + 1, 1, 1)
  }

  /** `d - timedelta(days=1)`. */
  function Prev(d: CalendarDate): CalendarDate {
    if d.day > 1 then Date(d.year, d.month, d.day - 1)
    else if d.month > 1 then Date(d.year, d.month - 1, DaysInMonth(d.year, d.month - 1))
    else Date(d.year - 1, 12, 31)
  }

  /** `d + timedelta(days=n)`, one day at a time. */
  function AddDays(d: CalendarDate, n: int): CalendarDate
    decreases if n < 0 then -n else n
  {
    if n == 0 then d
    else if n > 0 then Next(AddDays(d, n - 1))
    else Prev(AddDays(d, n + 1))
  }

  /** `d.replace(day=1)`. */
  function FirstOfMonth(d: CalendarDate): (r: CalendarDate)
    ensures r.year == d.year && r.month == d.month && r.day == 1
  {
    Date(d.year, d.month, 1)
  }

  /** The last day of the month that `d` is in. */
  function LastOfMonth(d: CalendarDate): (r: CalendarDate)
    ensures r.year == d.year && r.month == d.month
  {
    Date(d.year, d.month, DaysInMonth(d.year, d.month))
  }

  /** The first day of the month after the one `d` is in. */
  function FirstOfNextMonth(d: CalendarDate): (r: CalendarDate)
    ensures r.day == 1
  {
    if d.month == 12 then Date(d.year + 1, 1, 1) else Date(d.year, d.month + 1, 1)
  }

  /** `d - relativedelta(months=k)`: the day is clamped to the length of the target month. */
  function MinusMonths(d: CalendarDate, k: nat): (r: CalendarDate)
    ensures r.day <= d.day
  {
    var total := d.year * 12 + (d.month - 1) - k;
    var y := total / 12;
    var m := total % 12 + 1;
    var dd := if d.day <= DaysInMonth(y, m) then d.day else DaysInMonth(y, m);
    Date(y, m, dd)
  }

  // ---------------------------------------------------------------------
  // Day-number arithmetic

  lemma Div4Step(p: int)
    ensures (p + 1) / 4 == p / 4 + (if (p + 1) % 4 == 0 then 1 else 0)
  {
  }

  lemma Div100Step(p: int)
    ensures (p + 1) / 100 == p / 100 + (if (p + 1) % 100 == 0 then 1 else 0)
  {
  }

  lemma Div400Step(p: int)
    ensures (p + 1) / 400 == p / 400 + (if (p + 1) % 400 == 0 then 1 else 0)
  {
  }

  lemma CenturyFacts(y: int)
    ensures y % 400 == 0 ==> y % 100 == 0
    ensures y % 100 == 0 ==> y % 4 == 0
  {
    if y % 400 == 0 {
      var q := y / 400;
      assert y == 400 * q;
      assert y == 100 * (4 * q);
    }
    if y % 100 == 0 {
      var q := y / 100;
      assert y == 100 * q;
      assert y == 4 * (25 * q);
    }
  }

  lemma YearStep(y: int)
    ensures DaysBeforeYear(y + 1) == DaysBeforeYear(y) + YearLength(y)
  {
    Div4Step(y - 1);
    Div100Step(y - 1);
    Div400Step(y - 1);
    CenturyFacts(y);
  }

  lemma MonthStep(y: int, m: int)
    requires 1 <= m < 12
    ensures DaysBeforeMonth(y, m + 1) == DaysBeforeMonth(y, m) + DaysInMonth(y, m)
  {
  }

  /** One day forward is one ordinal forward. */
  lemma NextOrdinal(d: CalendarDate)
    ensures Ordinal(Next(d)) == Ordinal(d) + 1
  {
    if d.day < DaysInMonth(d.year, d.month) {
    } else if d.month < 12 {
      MonthStep(d.year, d.month);
    } else {
      YearStep(d.year);
    }
  }

  /** One day back is one ordinal back. */
  lemma PrevOrdinal(d: CalendarDate)
    ensures Ordinal(Prev(d)) == Ordinal(d) - 1
  {
    if d.day > 1 {
    } else if d.month > 1 {
      MonthStep(d.year, d.month - 1);
    } else {
      YearStep(d.year - 1);
    }
  }

  lemma NextPrev(d: CalendarDate)
    ensures Prev(Next(d)) == d && Next(Prev(d)) == d
  {
  }

  /** Adding `n` days moves the ordinal by exactly `n`. */
  lemma {:induction false} AddDaysOrdinal(d: CalendarDate, n: int)
    ensures Ordinal(AddDays(d, n)) == Ordinal(d) + n
    decreases if n < 0 then -n else n
  {
    if n > 0 {
      AddDaysOrdinal(d, n - 1);
      NextOrdinal(AddDays(d, n - 1));
    } else if n < 0 {
      AddDaysOrdinal(d, n + 1);
      PrevOrdinal(AddDays(d, n + 1));
    }
  }

  /** The ordinal determines the date: no two calendar dates share a day number. */
  lemma OrdinalInjective(a: CalendarDate, b: CalendarDate)
    requires Ordinal(a) == Ordinal(b)
    ensures a == b
  {
    if a.year < b.year {
      YearBound(a, b.year);
      assert false;
    } else if b.year < a.year {
      YearBound(b, a.year);
      assert false;
    } else if a.month < b.month {
      MonthBound(a, b.month);
      assert false;
    } else if b.month < a.month {
      MonthBound(b, a.month);
      assert false;
    }
  }

  lemma MonthBound(a: CalendarDate, m: int)
    requires a.month < m <= 12
    ensures DaysBeforeMonth(a.year, a.month) + a.day <= DaysBeforeMonth(a.year, m)
  {
  }

  lemma YearEnd(y: int, m: int, day: int)
    requires 1 <= m <= 12 && 1 <= day <= DaysInMonth(y, m)
    ensures DaysBeforeMonth(y, m) + day <= YearLength(y)
  {
  }

  lemma {:induction false} YearBound(a: CalendarDate, y: int)
    requires a.year < y
    ensures Ordinal(a) <= DaysBeforeYear(y)
    decreases y - a.year
  {
    YearStep(y - 1);
    if a.year < y - 1 {
      YearBound(a, y - 1);
    } else {
      YearEnd(a.year, a.month, a.day);
    }
  }

  /** Comparing ordinals is comparing (year, month, day) lexicographically. */
  lemma LexicographicOrder(a: CalendarDate, b: CalendarDate)
    ensures Lt(a, b) <==>
      a.year < b.year || (a.year == b.year && (a.month < b.month || (a.month == b.month && a.day < b.day)))
  {
    if a.year < b.year {
      YearBound(a, b.year);
    } else if b.year < a.year {
      YearBound(b, a.year);
    } else if a.month < b.month {
      MonthBound(a, b.month);
    } else if b.month < a.month {
      MonthBound(b, a.month);
    }
  }

  /** Adding days and comparing agree: `d + n` is after `d` exactly when `n > 0`. */
  lemma AddDaysOrder(d: CalendarDate, n: int)
    ensures Le(d, AddDays(d, n)) <==> n >= 0
    ensures AddDays(d, n) == d <==> n == 0
  {
    AddDaysOrdinal(d, n);
    if AddDays(d, n) == d {
      assert Ordinal(AddDays(d, n)) == Ordinal(d);
    }
  }

  /** The day before the first of a month is the last day of the previous month. */
  lemma PrevOfFirst(d: CalendarDate)
    ensures AddDays(FirstOfNextMonth(d), -1) == LastOfMonth(d)
    ensures AddDays(FirstOfMonth(d), -1) == LastOfMonth(MinusMonths(d, 1))
  {
    assert AddDays(FirstOfNextMonth(d), -1) == Prev(FirstOfNextMonth(d));
    assert AddDays(FirstOfMonth(d), -1) == Prev(FirstOfMonth(d));
  }

  /** `MinusMonths(d, 1)` lands in the previous calendar month (January goes to December of the year before). */
  lemma MinusOneMonth(d: CalendarDate)
    ensures MinusMonths(d, 1).month == (if d.month == 1 then 12 else d.month - 1)
    ensures MinusMonths(d, 1).year == (if d.month == 1 then d.year - 1 else d.year)
  {
  }
}
