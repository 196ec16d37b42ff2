/**
 * The Gregorian arithmetic behind the `Date` steps of `parseIso`
 * (src/policy/scope-engine.mjs): day numbers, and civil dates from them.
 */
module Calendar {
  datatype Date = Date(year: int, month: int, day: int)

  predicate Leap(y: int) {
    y % 4 == 0 && (y % 100 != 0 || y % 400 == 0)
  }

  function DaysInYear(y: int): int {
    if Leap(y) then 366 else 365
  }

  function DaysInMonth(y: int, m: int): int
    requires 1 <= m <= 12
  {
    if m == 2 then (if Leap(y) then 29 else 28)
    else if m == 4 || m == 6 || m == 9 || m == 11 then 30 else 31
  }

  /** A date that a calendar shows. */
  predicate Real(d: Date) {
    1 <= d.month <= 12 && 1 <= d.day <= DaysInMonth(d.year, d.month)
  }

  /** The number of the first day of a year; 1 January 1970 is day 0. */
  function DayFromYear(y: int): int {
    365 * (y - 1970) + (y - 1969) / 4 - (y - 1901) / 100 + (y - 1601) / 400
  }

  function DaysBefore(y: int, m: int): int
    requires 1 <= m <= 12
  {
    if m == 1 then 0 else DaysBefore(y, m - 1) + DaysInMonth(y, m - 1)
  }

  /** A day beyond the end of its month runs over into the next one. */
  function DayNumber(d: Date): int
    requires 1 <= d.month <= 12
  {
    DayFromYear(d.year) + DaysBefore(d.year, d.month) + d.day - 1
  }

  lemma Fours(y: int)
    ensures (y - 1968) / 4 - (y - 1969) / 4 == if y % 4 == 0 then 1 else 0
  {
    var q, r := y / 4, y % 4;
    assert y == 4 * q + r;
  }

  lemma Hundreds(y: int)
    ensures (y - 1900) / 100 - (y - 1901) / 100 == if y % 100 == 0 then 1 else 0
  {
    var q, r := y / 100, y % 100;
    assert y == 100 * q + r;
    assert (y - 1900) / 100 == q - 19;
    assert (y - 1901) / 100 == if r == 0 then q - 20 else q - 19;
  }

  lemma FourHundreds(y: int)
    ensures (y - 1600) / 400 - (y - 1601) / 400 == if y % 400 == 0 then 1 else 0
  {
    var q, r := y / 400, y % 400;
    assert y == 400 * q + r;
    assert (y - 1600) / 400 == q - 4;
    assert (y - 1601) / 400 == if r == 0 then q - 5 else q - 4;
  }

  lemma YearsAreLong(y: int)
    ensures DayFromYear(y + 1) == DayFromYear(y) + DaysInYear(y)
  {
    Fours(y);
    Hundreds(y);
    FourHundreds(y);
    assert y % 400 == 0 ==> y % 100 == 0;
    assert y % 100 == 0 ==> y % 4 == 0;
  }

  lemma {:induction false} YearsOrdered(y: int, z: int)
    requires y < z
    ensures DayFromYear(y) + 365 <= DayFromYear(z)
    decreases z - y
  {
    YearsAreLong(z - 1);
    if y < z - 1 { YearsOrdered(y, z - 1); }
  }

  function Distance(y: int, n: int): int {
    if n < DayFromYear(y) then 1 + DayFromYear(y) - n
    else if DayFromYear(y + 1) <= n then 1 + n - DayFromYear(y + 1)
    else 0
  }

  lemma Nearer(y: int, n: int)
    ensures Distance(y, n) >= 0
    ensures n < DayFromYear(y) ==> Distance(y - 1, n) < Distance(y, n)
    ensures DayFromYear(y) <= n && DayFromYear(y + 1) <= n ==> Distance(y + 1, n) < Distance(y, n)
  {
    YearsAreLong(y - 1);
    YearsAreLong(y + 1);
  }

  /** The year that holds day `n`, searched from `y`. */
  function YearFrom(y: int, n: int): (r: int)
    ensures DayFromYear(r) <= n < DayFromYear(r + 1)
    decreases Distance(y, n)
  {
    Nearer(y, n);
    if n < DayFromYear(y) then YearFrom(y - 1, n)
    else if DayFromYear(y + 1) <= n then YearFrom(y + 1, n)
    else y
  }

  /** The month and day of the day that is `k` days after the first of month `m`. */
  function MonthFrom(y: int, m: int, k: int): (r: Date)
    requires 1 <= m <= 12 && 0 <= k && DaysBefore(y, m) + k < DaysInYear(y)
    ensures Real(r) && r.year == y && m <= r.month && DaysBefore(y, r.month) + r.day - 1 == DaysBefore(y, m) + k
    decreases 12 - m
  {
    YearIsItsMonths(y);
    if k < DaysInMonth(y, m) then Date(y, m, k + 1) else MonthFrom(y, m + 1, k - DaysInMonth(y, m))
  }

  lemma YearIsItsMonths(y: int)
    ensures DaysBefore(y, 12) + 31 == DaysInYear(y)
  {
    var feb := DaysInMonth(y, 2);
    assert DaysBefore(y, 2) == 31;
    assert DaysBefore(y, 3) == 31 + feb;
    assert DaysBefore(y, 5) == 92 + feb by { assert DaysBefore(y, 4) == 62 + feb; }
    assert DaysBefore(y, 7) == 153 + feb by { assert DaysBefore(y, 6) == 123 + feb; }
    assert DaysBefore(y, 9) == 215 + feb by { assert DaysBefore(y, 8) == 184 + feb; }
    assert DaysBefore(y, 11) == 276 + feb by { assert DaysBefore(y, 10) == 245 + feb; }
  }

  function CivilOf(n: int): (r: Date)
    ensures Real(r) && DayNumber(r) == n
  {
    var y := YearFrom(1970, n);
    YearsAreLong(y);
    MonthFrom(y, 1, n - DayFromYear(y))
  }

  lemma {:induction false} MonthsOrdered(y: int, m: int, k: int)
    requires 1 <= m < k <= 12
    ensures DaysBefore(y, m) + DaysInMonth(y, m) <= DaysBefore(y, k)
    decreases k - m
  {
    if m < k - 1 { MonthsOrdered(y, m, k - 1); }
  }

  lemma InsideYear(d: Date)
    requires Real(d)
    ensures DayFromYear(d.year) <= DayNumber(d) < DayFromYear(d.year + 1)
  {
    YearsAreLong(d.year);
    YearIsItsMonths(d.year);
    if d.month > 1 { MonthsOrdered(d.year, 1, d.month); }
    if d.month < 12 { MonthsOrdered(d.year, d.month, 12); }
  }

  /** Different days have different numbers. */
  lemma DayNumberInjective(a: Date, b: Date)
    requires Real(a) && Real(b) && DayNumber(a) == DayNumber(b)
    ensures a == b
  {
    InsideYear(a);
    InsideYear(b);
    if a.year < b.year {
      if a.year + 1 < b.year { YearsOrdered(a.year + 1, b.year); }
      assert false;
    } else if b.year < a.year {
      if b.year + 1 < a.year { YearsOrdered(b.year + 1, a.year); }
      assert false;
    } else if a.month < b.month {
      MonthsOrdered(a.year, a.month, b.month);
      assert false;
    } else if b.month < a.month {
      MonthsOrdered(a.year, b.month, a.month);
      assert false;
    }
  }

  /** The roll-over check: a date comes back from its day number exactly when its month has that day. */
  lemma RollOverIff(d: Date)
    requires 1 <= d.month <= 12 && 1 <= d.day
    ensures CivilOf(DayNumber(d)) == d <==> d.day <= DaysInMonth(d.year, d.month)
  {
    if Real(d) { DayNumberInjective(CivilOf(DayNumber(d)), d); }
  }

  /** The next day in the calendar. */
  function NextDay(d: Date): Date
    requires Real(d)
  {
    if d.day < DaysInMonth(d.year, d.month) then d.(day := d.day + 1)
    else if d.month < 12 then Date(d.year, d.month + 1, 1)
    else Date(d.year + 1, 1, 1)
  }

  /** Day numbers count the days of the calendar, from 1 January 1970. */
  lemma DayNumbersCount(d: Date)
    requires Real(d)
    ensures DayNumber(Date(1970, 1, 1)) == 0
    ensures Real(NextDay(d)) && DayNumber(NextDay(d)) == DayNumber(d) + 1
  {
    YearsAreLong(d.year);
    YearIsItsMonths(d.year);
  }
}
