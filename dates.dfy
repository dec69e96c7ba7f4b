/**
 * The business date: the calendar day an order is attributed to, written
 * `Y-MM-DD` (server.js `pad2` and `getBusinessDate`). The calendar fields of
 * the local clock are parameters: `monthIndex` is zero-based, as
 * `Date.prototype.getMonth` returns it.
 */
module BusinessDates {

  import opened Wrappers
  import opened Text

  /** `String(n).padStart(2, "0")`. */
  function Pad2(n: nat): string {
    var s := NatToString(n);
    if |s| < 2 then "0" + s else s
  }

  lemma Pad2Shape(n: nat)
    ensures |Pad2(n)| >= 2 && AllDigits(Pad2(n))
    ensures n < 10 ==> Pad2(n) == ['0', DigitChar(n)]
    ensures n >= 10 ==> Pad2(n) == NatToString(n)
    ensures n < 100 ==> |Pad2(n)| == 2
    ensures DigitsValue(Pad2(n)) == n
  {
    NatToStringRoundTrip(n);
    if n >= 10 {
      assert NatToString(n) == NatToString(n / 10) + [DigitChar(n % 10)];
    } else {
      var p := Pad2(n);
      assert p[..1] == "0";
    }
  }

  function BusinessDate(year: nat, monthIndex: nat, day: nat): string {
    NatToString(year) + "-" + Pad2(monthIndex + 1) + "-" + Pad2(day)
  }

  /** Reads a `Y-M-D` date of decimal fields back into (year, month, day). */
  function ParseDate(s: string): Option<(nat, nat, nat)> {
    var parts := Split(s, '-');
    if |parts| == 3 && parts[0] != "" && parts[1] != "" && parts[2] != ""
       && AllDigits(parts[0]) && AllDigits(parts[1]) && AllDigits(parts[2])
    then Some((DigitsValue(parts[0]), DigitsValue(parts[1]), DigitsValue(parts[2])))
    else None
  }

  lemma DigitsHaveNoDash(s: string)
    requires AllDigits(s)
    ensures '-' !in s
  {
  }

  /** The business date reads back as the calendar month (one-based) and day. */
  lemma BusinessDateRoundTrip(year: nat, monthIndex: nat, day: nat)
    ensures ParseDate(BusinessDate(year, monthIndex, day)) == Some((year, monthIndex + 1, day))
  {
    var parts := [NatToString(year), Pad2(monthIndex + 1), Pad2(day)];
    Pad2Shape(monthIndex + 1);
    Pad2Shape(day);
    NatToStringRoundTrip(year);
    DigitsHaveNoDash(parts[0]);
    DigitsHaveNoDash(parts[1]);
    DigitsHaveNoDash(parts[2]);
    BusinessDateIsJoin(parts[0], parts[1], parts[2]);
    SplitJoin(parts, '-');
  }

  /** The date is its three fields joined with dashes. */
  lemma BusinessDateIsJoin(y: string, m: string, d: string)
    ensures Join([y, m, d], "-") == y + "-" + m + "-" + d
  {
    var parts := [y, m, d];
    assert parts[1..][1..] == [d];
    assert Join(parts[1..], "-") == m + "-" + d;
  }

  /** Two different calendar days never share a business date. */
  lemma BusinessDateInjective(y1: nat, m1: nat, d1: nat, y2: nat, m2: nat, d2: nat)
    requires BusinessDate(y1, m1, d1) == BusinessDate(y2, m2, d2)
    ensures y1 == y2 && m1 == m2 && d1 == d2
  {
    BusinessDateRoundTrip(y1, m1, d1);
    BusinessDateRoundTrip(y2, m2, d2);
  }

  lemma FourDigitYear(year: nat)
    requires 1000 <= year <= 9999
    ensures |NatToString(year)| == 4
  {
    assert NatToString(year) == NatToString(year / 10) + [DigitChar(year % 10)];
    assert NatToString(year / 10) == NatToString(year / 100) + [DigitChar(year / 10 % 10)];
    assert NatToString(year / 100) == NatToString(year / 1000) + [DigitChar(year / 100 % 10)];
  }

  /** For a four-digit year and a real calendar day the result is `YYYY-MM-DD`. */
  lemma BusinessDateLayout(year: nat, monthIndex: nat, day: nat)
    requires 1000 <= year <= 9999 && monthIndex < 12 && 1 <= day <= 31
    ensures var s := BusinessDate(year, monthIndex, day);
      |s| == 10 && s[4] == '-' && s[7] == '-'
      && forall i :: 0 <= i < 10 && i != 4 && i != 7 ==> IsDigit(s[i])
  {
    FourDigitYear(year);
    Pad2Shape(monthIndex + 1);
    Pad2Shape(day);
    var s := BusinessDate(year, monthIndex, day);
    var y, m, d := NatToString(year), Pad2(monthIndex + 1), Pad2(day);
    assert s == y + "-" + m + "-" + d;
    forall i | 0 <= i < 10 && i != 4 && i != 7
      ensures IsDigit(s[i])
    {
      if i < 4 { assert s[i] == y[i]; }
      else if i < 7 { assert s[i] == m[i - 5]; }
      else { assert s[i] == d[i - 8]; }
    }
  }
}
