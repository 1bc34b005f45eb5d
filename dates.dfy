// Calendar dates. The source handles dates as RFC 3339 `full-date` strings
// (YYYY-MM-DD, section 5.6 of RFC 3339) and compares them with `<`; the model
// stores a date as its day number, and this module proves the two orders
// agree. It also models `Date.prototype.setMonth(getMonth() + k)`.
module Dates {
  import opened Wrappers
  import opened Text

  /** A proleptic Gregorian calendar date, as a UTC `toISOString()` shows it. */
  datatype CivilDate = CivilDate(year: nat, month: nat, day: nat)

  /** Days counted from 0000-01-01. */
  type Day = int

  predicate IsLeapYear(y: nat) {
    y % 4 == 0 && (y % 100 != 0 || y % 400 == 0)
  }

  function YearLength(y: nat): nat {
    if IsLeapYear(y) then 366 else 365
  }

  function MonthLength(y: nat, m: nat): (n: nat)
    requires 1 <= m <= 12
    ensures 28 <= n <= 31
  {
    if m == 2 then (if IsLeapYear(y) then 29 else 28)
    else if m == 4 || m == 6 || m == 9 || m == 11 then 30
    else 31
  }

  /** A date `toISOString()` writes with a four-digit year. */
  predicate ValidDate(d: CivilDate) {
    d.year <= 9999 && 1 <= d.month <= 12 && 1 <= d.day <= MonthLength(d.year, d.month)
  }

  function DaysBeforeYear(y: nat): nat {
    if y == 0 then 0 else DaysBeforeYear(y - 1) + YearLength(y - 1)
  }

  function DaysBeforeMonth(y: nat, m: nat): nat
    requires 1 <= m <= 13
  {
    if m == 1 then 0 else DaysBeforeMonth(y, m - 1) + MonthLength(y, m - 1)
  }

  /** Day number of the first of month m in year y. */
  function FirstOfMonth(y: nat, m: nat): Day
    requires 1 <= m <= 12
  {
    DaysBeforeYear(y) + DaysBeforeMonth(y, m)
  }

  /** The day number of a date; a day past the end of its month rolls into
      the following months, as JavaScript's Date does. */
  function DayNumber(d: CivilDate): Day
    requires 1 <= d.month <= 12
  {
    FirstOfMonth(d.year, d.month) + d.day - 1
  }

  lemma YearOfMonths(y: nat)
    ensures DaysBeforeMonth(y, 13) == YearLength(y)
  {
    var f := MonthLength(y, 2);
    assert DaysBeforeMonth(y, 2) == 31;
    assert DaysBeforeMonth(y, 3) == 31 + f;
    assert DaysBeforeMonth(y, 4) == 62 + f;
    assert DaysBeforeMonth(y, 5) == 92 + f;
    assert DaysBeforeMonth(y, 6) == 123 + f;
    assert DaysBeforeMonth(y, 7) == 153 + f;
    assert DaysBeforeMonth(y, 8) == 184 + f;
    assert DaysBeforeMonth(y, 9) == 215 + f;
    assert DaysBeforeMonth(y, 10) == 245 + f;
    assert DaysBeforeMonth(y, 11) == 276 + f;
    assert DaysBeforeMonth(y, 12) == 306 + f;
    assert DaysBeforeMonth(y, 13) == 337 + f;
  }

  lemma {:induction false} DaysBeforeMonthMonotone(y: nat, m: nat, n: nat)
    requires 1 <= m <= n <= 13
    ensures DaysBeforeMonth(y, m) + (if m < n then MonthLength(y, m) else 0) <= DaysBeforeMonth(y, n)
    decreases n - m
  {
    if m < n - 1 {
      DaysBeforeMonthMonotone(y, m, n - 1);
    }
  }

  lemma {:induction false} DaysBeforeYearMonotone(x: nat, y: nat)
    requires x < y
    ensures DaysBeforeYear(x) + YearLength(x) <= DaysBeforeYear(y)
    decreases y - x
  {
    if x < y - 1 {
      DaysBeforeYearMonotone(x, y - 1);
    }
  }

  /** The next month's first day comes one month length after this month's. */
  lemma NextFirstOfMonth(y: nat, m: nat)
    requires 1 <= m <= 12
    ensures m < 12 ==> FirstOfMonth(y, m + 1) == FirstOfMonth(y, m) + MonthLength(y, m)
    ensures m == 12 ==> FirstOfMonth(y + 1, 1) == FirstOfMonth(y, 12) + MonthLength(y, 12)
  {
    YearOfMonths(y);
  }

  /** Chronological order of dates: year, then month, then day. */
  predicate CivilLess(a: CivilDate, b: CivilDate) {
    a.year < b.year
    || (a.year == b.year && a.month < b.month)
    || (a.year == b.year && a.month == b.month && a.day < b.day)
  }

  /** Day numbers order valid dates chronologically. */
  lemma DayNumberOrder(a: CivilDate, b: CivilDate)
    requires ValidDate(a) && ValidDate(b)
    ensures DayNumber(a) < DayNumber(b) <==> CivilLess(a, b)
    ensures DayNumber(a) == DayNumber(b) <==> a == b
  {
    if a.year < b.year {
      DaysBeforeMonthMonotone(a.year, a.month, 13);
      YearOfMonths(a.year);
      DaysBeforeYearMonotone(a.year, b.year);
    } else if b.year < a.year {
      DaysBeforeMonthMonotone(b.year, b.month, 13);
      YearOfMonths(b.year);
      DaysBeforeYearMonotone(b.year, a.year);
    } else if a.month < b.month {
      DaysBeforeMonthMonotone(a.year, a.month, b.month);
    } else if b.month < a.month {
      DaysBeforeMonthMonotone(a.year, b.month, a.month);
    }
  }

  /** `toISOString().split('T')[0]`: the RFC 3339 full-date of a date. */
  function FullDate(d: CivilDate): string {
    Padded(d.year, 4) + ("-" + (Padded(d.month, 2) + ("-" + Padded(d.day, 2))))
  }

  /** `new Date(s)` for a date-only string: the date a full-date names, or
      None where the result is an Invalid Date. */
  function ParseFullDate(s: string): (r: Option<CivilDate>)
    ensures r.Some? ==> ValidDate(r.value)
  {
    if |s| == 10 && s[4] == '-' && s[7] == '-'
       && AllDigits(s[..4]) && AllDigits(s[5..7]) && AllDigits(s[8..]) then
      var d := CivilDate(DigitsValue(s[..4]), DigitsValue(s[5..7]), DigitsValue(s[8..]));
      if ValidDate(d) then Some(d) else None
    else None
  }

  /** Parsing reads back the date a full-date was written from ... */
  lemma ParseFullDateInverse(d: CivilDate)
    requires ValidDate(d)
    ensures ParseFullDate(FullDate(d)) == Some(d)
  {
    var s := FullDate(d);
    assert Pow10(4) == 10000 && Pow10(2) == 100;
    PaddedShape(d.year, 4);
    PaddedShape(d.month, 2);
    PaddedShape(d.day, 2);
    JoinedParts(Padded(d.year, 4), Padded(d.month, 2), Padded(d.day, 2));
  }

  /** The parts of a year, month and day joined by dashes sit at fixed
      positions. */
  lemma JoinedParts(y: string, m: string, d: string)
    requires |y| == 4 && |m| == 2 && |d| == 2
    ensures var s := y + ("-" + (m + ("-" + d)));
      |s| == 10 && s[4] == '-' && s[7] == '-' && s[..4] == y && s[5..7] == m && s[8..] == d
  {
  }

  /** ... and a string that parses is the full-date of what it parses to. */
  lemma ParseFullDateExact(s: string)
    requires ParseFullDate(s).Some?
    ensures FullDate(ParseFullDate(s).value) == s
  {
    var d := ParseFullDate(s).value;
    DigitsArePadded(s[..4], 4);
    DigitsArePadded(s[5..7], 2);
    DigitsArePadded(s[8..], 2);
    DashedParts(s);
  }

  /** A ten-character string with dashes at 4 and 7 is its three parts
      joined by dashes. */
  lemma DashedParts(s: string)
    requires |s| == 10 && s[4] == '-' && s[7] == '-'
    ensures s == s[..4] + ("-" + (s[5..7] + ("-" + s[8..])))
  {
    assert s[4..5] == "-" && s[7..8] == "-";
    assert s == s[..4] + s[4..5] + s[5..7] + s[7..8] + s[8..];
  }

  /** The string comparison the booking form applies to full-dates is the
      chronological order, so comparing day numbers models it. */
  lemma FullDateOrder(a: CivilDate, b: CivilDate)
    requires ValidDate(a) && ValidDate(b)
    ensures LexLess(FullDate(a), FullDate(b)) <==> DayNumber(a) < DayNumber(b)
  {
    DayNumberOrder(a, b);
    assert Pow10(4) == 10000 && Pow10(2) == 100;
    LexPadded(a.year, b.year, 4);
    LexPadded(a.month, b.month, 2);
    LexPadded(a.day, b.day, 2);
    PaddedShape(a.year, 4);
    PaddedShape(b.year, 4);
    PaddedShape(a.month, 2);
    PaddedShape(b.month, 2);
    LexJoined(Padded(a.year, 4), Padded(a.month, 2), Padded(a.day, 2),
              Padded(b.year, 4), Padded(b.month, 2), Padded(b.day, 2));
  }

  /** Two dash-joined triples whose parts have matching lengths compare
      part by part. */
  lemma LexJoined(ya: string, ma: string, da: string, yb: string, mb: string, db: string)
    requires |ya| == |yb| && |ma| == |mb|
    ensures LexLess(ya + ("-" + (ma + ("-" + da))), yb + ("-" + (mb + ("-" + db))))
      <==> LexLess(ya, yb) || (ya == yb && (LexLess(ma, mb) || (ma == mb && LexLess(da, db))))
  {
    LexDash(da, db);
    LexConcat(ma, mb, "-" + da, "-" + db);
    LexDash(ma + ("-" + da), mb + ("-" + db));
    LexConcat(ya, yb, "-" + (ma + ("-" + da)), "-" + (mb + ("-" + db)));
  }

  lemma LexDash(x: string, y: string)
    ensures LexLess("-" + x, "-" + y) <==> LexLess(x, y)
  {
    LexConcat("-", "-", x, y);
  }

  /** `new Date(d).setMonth(d.getMonth() + k)`: the month index carries into
      the year and the day of month is kept, overflowing into later months. */
  function AddMonths(d: CivilDate, k: nat): Day
    requires 1 <= d.month <= 12
  {
    var total := d.month - 1 + k;
    FirstOfMonth(d.year + total / 12, total % 12 + 1) + d.day - 1
  }

  /** The lengths of month m of year y and of the two months after it. */
  function ThreeMonthSpan(y: nat, m: nat): nat
    requires 1 <= m <= 12
  {
    if m <= 10 then MonthLength(y, m) + MonthLength(y, m + 1) + MonthLength(y, m + 2)
    else if m == 11 then MonthLength(y, 11) + MonthLength(y, 12) + MonthLength(y + 1, 1)
    else MonthLength(y, 12) + MonthLength(y + 1, 1) + MonthLength(y + 1, 2)
  }

  lemma ThreeMonthSpanBounds(y: nat, m: nat)
    requires 1 <= m <= 12
    ensures 89 <= ThreeMonthSpan(y, m) <= 92
  {
  }

  /** Three months ahead lies 89 to 92 days ahead: the lengths of the month
      of d and the two months after it. */
  lemma ThreeMonthsAhead(d: CivilDate)
    requires 1 <= d.month <= 12
    ensures AddMonths(d, 3) - DayNumber(d) == ThreeMonthSpan(d.year, d.month)
    ensures 89 <= AddMonths(d, 3) - DayNumber(d) <= 92
  {
    var y, m := d.year, d.month;
    ThreeMonthSpanBounds(y, m);
    NextFirstOfMonth(y, m);
    if m <= 9 {
      assert (m + 2) / 12 == 0 && (m + 2) % 12 == m + 2;
      NextFirstOfMonth(y, m + 1);
      NextFirstOfMonth(y, m + 2);
    } else if m == 10 {
      assert AddMonths(d, 3) == FirstOfMonth(y + 1, 1) + d.day - 1;
      NextFirstOfMonth(y, 11);
      NextFirstOfMonth(y, 12);
    } else if m == 11 {
      assert AddMonths(d, 3) == FirstOfMonth(y + 1, 2) + d.day - 1;
      NextFirstOfMonth(y, 12);
      NextFirstOfMonth(y + 1, 1);
    } else {
      assert AddMonths(d, 3) == FirstOfMonth(y + 1, 3) + d.day - 1;
      NextFirstOfMonth(y + 1, 1);
      NextFirstOfMonth(y + 1, 2);
    }
  }
}
