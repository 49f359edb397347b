/** The Chilean-peso display helpers of the frontend: `formatCLP`,
    `formatCurrency`, `formatMoney` and `formatDate`.  A value that `Number(...)`
    cannot read (NaN) is `None`. */
module Currency {
  import opened Common
  import opened Text
  import opened Dates

  /** `Math.round`: halves round toward positive infinity. */
  function Round(x: real): (n: int)
    ensures x - 0.5 < n as real <= x + 0.5
  {
    (x + 0.5).Floor
  }

  /** The effect of `replace(/\B(?=(\d{3})+(?!\d))/g, '.')` on a run of digits:
      a '.' before every group of three digits counted from the right. */
  function Grouped(d: string): (g: string)
    requires AllDigits(d)
    ensures |d| <= 3 ==> g == d
    decreases |d|
  {
    if |d| <= 3 then d else Grouped(d[..|d| - 3]) + "." + d[|d| - 3..]
  }

  /** The string with its '.' characters deleted. */
  function WithoutDots(s: string): (r: string)
    ensures forall i :: 0 <= i < |r| ==> r[i] != '.'
  {
    if s == [] then []
    else if s[|s| - 1] == '.' then WithoutDots(s[..|s| - 1])
    else WithoutDots(s[..|s| - 1]) + [s[|s| - 1]]
  }

  lemma {:induction false} WithoutDotsAppend(a: string, b: string)
    ensures WithoutDots(a + b) == WithoutDots(a) + WithoutDots(b)
    decreases |b|
  {
    if b != [] {
      assert (a + b)[..|a + b| - 1] == a + b[..|b| - 1];
      WithoutDotsAppend(a, b[..|b| - 1]);
    } else {
      assert a + b == a;
    }
  }

  lemma {:induction false} WithoutDotsDigits(d: string)
    requires AllDigits(d)
    ensures WithoutDots(d) == d
    decreases |d|
  {
    if d != [] {
      WithoutDotsDigits(d[..|d| - 1]);
    }
  }

  /** Deleting the separators gives back the digits. */
  lemma {:induction false} GroupedDigits(d: string)
    requires AllDigits(d)
    ensures WithoutDots(Grouped(d)) == d
    decreases |d|
  {
    if |d| <= 3 {
      WithoutDotsDigits(d);
    } else {
      var head := d[..|d| - 3];
      var tail := d[|d| - 3..];
      GroupedDigits(head);
      WithoutDotsAppend(Grouped(head) + ".", tail);
      WithoutDotsAppend(Grouped(head), ".");
      assert WithoutDots(".") == [] by { assert "."[..0] == []; }
      WithoutDotsDigits(tail);
      assert head + tail == d;
    }
  }

  lemma Mod4Shift(x: int)
    ensures (x + 4) % 4 == x % 4
    ensures 1 <= x <= 3 ==> x % 4 != 0
  {
  }

  /** The separators sit exactly at every fourth position counted from the
      right end, never first: every group after the first has three digits
      and the first has one to three. */
  lemma {:induction false} GroupedSeparators(d: string)
    requires AllDigits(d) && |d| >= 1
    ensures var g := Grouped(d);
      |g| == |d| + (|d| - 1) / 3 &&
      forall i :: 0 <= i < |g| ==> (g[i] == '.' <==> i > 0 && (|g| - i) % 4 == 0)
    decreases |d|
  {
    var g := Grouped(d);
    if |d| > 3 {
      var head := d[..|d| - 3];
      var tail := d[|d| - 3..];
      GroupedSeparators(head);
      var gh := Grouped(head);
      assert g == gh + "." + tail;
      var L := |gh|;
      assert |g| == L + 4;
      assert L == |head| + (|head| - 1) / 3;
      assert (|d| - 1) / 3 == (|head| - 1) / 3 + 1;
      forall i | 0 <= i < |g|
        ensures g[i] == '.' <==> i > 0 && (|g| - i) % 4 == 0
      {
        Mod4Shift(L - i);
        if i < L {
          assert g[i] == gh[i];
          assert |g| - i == (L - i) + 4;
        } else if i > L {
          assert g[i] == tail[i - L - 1];
          Mod4Shift(|g| - i);
        } else {
          assert |g| - i == 4;
        }
      }
    }
  }

  /** `formatCLP(value)`: "$", the sign, then the rounded magnitude grouped by '.'. */
  function FormatCLP(value: Option<real>): (s: string)
    ensures |s| >= 2 && s[0] == '$'
  {
    FormatPesos(Round(value.GetOr(0.0)))
  }

  /** "$", the sign, then the magnitude grouped by '.'. */
  function FormatPesos(n: int): (s: string)
    ensures |s| >= 2 && s[0] == '$'
  {
    "$" + (if n < 0 then "-" else "") + Grouped(NatString(if n < 0 then -n else n))
  }

  /** Removing the "$" and the separators from `formatCLP` gives the decimal
      rendering of the rounded value; below 1000 in magnitude there is no separator. */
  lemma FormatCLPDigits(value: Option<real>)
    ensures var n := Round(value.GetOr(0.0));
      WithoutDots(FormatCLP(value)[1..]) == IntString(n) &&
      (-1000 < n < 1000 ==> FormatCLP(value) == "$" + IntString(n))
  {
    FormatPesosDigits(Round(value.GetOr(0.0)));
  }

  lemma FormatPesosDigits(n: int)
    ensures WithoutDots(FormatPesos(n)[1..]) == IntString(n)
    ensures -1000 < n < 1000 ==> FormatPesos(n) == "$" + IntString(n)
  {
    PesosStripped(n);
    if -1000 < n < 1000 {
      NatStringShort(if n < 0 then -n else n);
    }
  }

  lemma PesosStripped(n: int)
    ensures WithoutDots(FormatPesos(n)[1..]) == IntString(n)
  {
    var m: nat := if n < 0 then -n else n;
    var digits := NatString(m);
    var gd := Grouped(digits);
    var sign := if n < 0 then "-" else "";
    assert FormatPesos(n) == "$" + (sign + gd);
    assert ("$" + (sign + gd))[1..] == sign + gd;
    GroupedDigits(digits);
    WithoutDotsAppend(sign, gd);
    assert WithoutDots(sign) == sign by {
      if n < 0 {
        assert "-"[..0] == [];
      }
    }
    assert IntString(n) == sign + digits;
  }

  lemma {:induction false} NatStringShort(m: nat)
    requires m < 1000
    ensures |NatString(m)| <= 3
  {
    if m >= 10 {
      NatStringShort(m / 10);
    }
  }

  /** A formatted amount: the peso text, or the dollar amount that `toFixed(2)` renders
      (its text is not modelled), or "US$NaN" for a value `Number` cannot read. */
  datatype Formatted = Clp(text: string) | Usd(amount: real) | UsdNaN

  /** `formatCurrency(value, currency)`: `formatUSD` for "USD" only, which reads an
      unreadable value as 0, and the peso path otherwise. */
  function FormatCurrency(value: Option<real>, currency: string): (r: Formatted)
    ensures r.Clp? <==> currency != "USD"
    ensures r.Clp? ==> r.text == FormatCLP(value)
    ensures r.Usd? ==> r.amount == value.GetOr(0.0)
    ensures !r.UsdNaN?
  {
    if currency == "USD" then Usd(value.GetOr(0.0)) else Clp(FormatCLP(value))
  }

  /** `formatMoney(value, currency)`: rounds first, then takes the dollar path for "USD",
      which formats `Number(value)` with no fallback, and otherwise builds the peso string itself. */
  function FormatMoney(value: Option<real>, currency: string): Formatted {
    var num := Round(value.GetOr(0.0));
    if currency == "USD" then (if value.None? then UsdNaN else Usd(value.value))
    else Clp(FormatPesos(num))
  }

  /** `formatMoney` agrees with `formatCurrency` on pesos and on every readable dollar
      value; on a dollar value `Number` cannot read it gives "US$NaN" where
      `formatCurrency` gives "US$0.00". */
  lemma FormatMoneyAgrees(value: Option<real>, currency: string)
    ensures currency != "USD" || value.Some? ==> FormatMoney(value, currency) == FormatCurrency(value, currency)
    ensures currency == "USD" && value.None? ==>
      FormatMoney(value, currency) == UsdNaN && FormatCurrency(value, currency) == Usd(0.0)
  {
  }

  /** `formatDate(dateString)`: "" for an empty input, otherwise DD/MM/YYYY. */
  function FormatDate(d: Option<CalendarDate>): (s: string)
    ensures d.None? <==> s == ""
  {
    match d
    case None => ""
    case Some(date) => PadTwo(date.day) + "/" + PadTwo(date.month) + "/" + IntString(date.year)
  }

  /** The day and month occupy two digits each, separated by '/', and read back as the date's. */
  lemma FormatDateFields(date: CalendarDate)
    ensures var s := FormatDate(Some(date));
      |s| >= 7 && s[2] == '/' && s[5] == '/' &&
      AllDigits(s[..2]) && ValueOf(s[..2]) == date.day &&
      AllDigits(s[3..5]) && ValueOf(s[3..5]) == date.month &&
      s[6..] == IntString(date.year)
  {
    var s := FormatDate(Some(date));
    var dd := PadTwo(date.day);
    var mm := PadTwo(date.month);
    assert s == dd + "/" + mm + "/" + IntString(date.year);
    assert s[..2] == dd;
    assert s[3..5] == mm;
  }
}
