/** UTC calendar fields of a timestamp in milliseconds, as `Date.toISOString()` prints them
    (proleptic Gregorian calendar). */
module Calendar {
  const MS_PER_DAY := 86_400_000

  /** Days since 1970-01-01. */
  function DayOf(t: int): int { t / MS_PER_DAY }

  function AtMost(x: int, bound: int): int { if x < bound then x else bound }

  /** Year (0 to 399, starting on 1 March) and day of that year, for a day of a 400-year era:
      split off centuries of 36524 days, then four-year cycles of 1461, then years of 365. */
  function YearAndDay(d: int): (int, int) {
    var century := AtMost(d / 36_524, 3);
    var c := d - 36_524 * century;
    var cycle := c / 1_461;
    var q := c - 1_461 * cycle;
    var year := AtMost(q / 365, 3);
    (100 * century + 4 * cycle + year, q - 365 * year)
  }

  /** Months since January of year 0, for a day number; March is the first month of a year here,
      and the month lengths from March repeat 31, 30, 31, 30, 31, hence the 153-day formula. */
  function MonthOfDay(day: int): int {
    var z := day + 719_468;
    var (year, dayOfYear) := YearAndDay(z % 146_097);
    12 * (400 * (z / 146_097) + year) + (5 * dayOfYear + 2) / 153 + 2
  }

  function MonthOf(t: int): int { MonthOfDay(DayOf(t)) }

  lemma YearAndDayRange(d: int)
    requires 0 <= d < 146_097
    ensures 0 <= YearAndDay(d).0 < 400 && 0 <= YearAndDay(d).1 <= 365
  {
    var century := AtMost(d / 36_524, 3);
    var c := d - 36_524 * century;
    assert 0 <= c <= 36_524;
    assert 0 <= c / 1_461 <= 24;
  }

  /** The next day is the next day of the same year or the first day of the next year. */
  lemma NextDay(d: int)
    requires 0 <= d < 146_096
    ensures var (y, n) := YearAndDay(d); var (y', n') := YearAndDay(d + 1);
      (y' == y && n' == n + 1) || (y' == y + 1 && n' == 0)
  {
    var century, century' := AtMost(d / 36_524, 3), AtMost((d + 1) / 36_524, 3);
    var c, c' := d - 36_524 * century, d + 1 - 36_524 * century';
    assert (century' == century && c' == c + 1) || (century' == century + 1 && c' == 0 && c == 36_523);
    var cycle, cycle' := c / 1_461, c' / 1_461;
    assert c == 36_523 ==> cycle == 24;
    assert c' == c + 1 ==> (cycle' == cycle || (cycle' == cycle + 1 && c' == 1_461 * cycle'));
  }

  lemma FirstDay()
    ensures YearAndDay(0) == (0, 0)
  {
  }

  lemma MonthInYear(n: int, n': int)
    requires 0 <= n <= 365 && n' == n + 1
    ensures (5 * n + 2) / 153 <= 11
    ensures (5 * n + 2) / 153 <= (5 * n' + 2) / 153
  {
  }

  lemma MonthStep(day: int)
    ensures MonthOfDay(day) <= MonthOfDay(day + 1)
  {
    hide YearAndDay;
    var z := day + 719_468;
    var d := z % 146_097;
    YearAndDayRange(d);
    var (y, n) := YearAndDay(d);
    MonthInYear(n, n + 1);
    if d == 146_096 {
      assert (z + 1) / 146_097 == z / 146_097 + 1 && (z + 1) % 146_097 == 0;
      FirstDay();
    } else {
      assert (z + 1) / 146_097 == z / 146_097 && (z + 1) % 146_097 == d + 1;
      NextDay(d);
    }
  }

  lemma {:induction false} MonthMonotone(a: int, b: int)
    requires a <= b
    ensures MonthOfDay(a) <= MonthOfDay(b)
    decreases b - a
  {
    if a < b {
      MonthMonotone(a, b - 1);
      MonthStep(b - 1);
    }
  }

  /** Later timestamps never fall into an earlier month. */
  lemma MonthOfMonotone(t: int, u: int)
    requires t <= u
    ensures MonthOf(t) <= MonthOf(u)
  {
    MonthMonotone(DayOf(t), DayOf(u));
  }

  // ---------------------------------------------------------------- the civil calendar

  predicate Leap(year: int) { year % 4 == 0 && (year % 100 != 0 || year % 400 == 0) }

  /** Days in a month, counted in months since January of year 0. */
  function Length(month: int): int {
    var m := month % 12;
    if m == 1 then (if Leap(month / 12) then 29 else 28) else if m == 3 || m == 5 || m == 8 || m == 10 then 30 else 31
  }

  /** Days of the years, counted from 1 March, before a year. */
  function DaysBefore(year: int): int { 365 * year + year / 4 - year / 100 + year / 400 }

  /** The first day of a month. */
  function StartOf(month: int): int {
    DaysBefore((month - 2) / 12) + (153 * ((month - 2) % 12) + 2) / 5 - 719_468
  }

  lemma YearLength(y: int)
    ensures DaysBefore(y + 1) == DaysBefore(y) + if Leap(y + 1) then 366 else 365
  {
    QuotientStep(y, 4);
    QuotientStep(y, 100);
    QuotientStep(y, 400);
    assert (y + 1) % 400 == 0 ==> (y + 1) % 100 == 0;
    assert (y + 1) % 100 == 0 ==> (y + 1) % 4 == 0;
  }

  lemma QuotientStep(y: int, n: int)
    requires n > 1
    ensures (y + 1) / n == y / n + if (y + 1) % n == 0 then 1 else 0
  {
    var q, r := y / n, y % n;
    assert y == n * q + r;
    if r == n - 1 {
      assert y + 1 == n * (q + 1);
      Quotient(y + 1, n, q + 1, 0);
    } else {
      Quotient(y + 1, n, q, r + 1);
    }
  }

  lemma Quotient(x: int, n: int, q: int, r: int)
    requires n > 0 && 0 <= r < n && x == n * q + r
    ensures x / n == q && x % n == r
  {
    var d := x / n - q;
    assert n * d == r - x % n;
    Multiple(n, d);
  }

  lemma Multiple(n: int, d: int)
    requires n > 0
    ensures d > 0 ==> n * d >= n
    ensures d < 0 ==> n * d <= -n
  {
  }

  lemma StartInYear(y: int, k: int)
    requires 0 <= k <= 11
    ensures StartOf(12 * y + k + 2) == DaysBefore(y) + (153 * k + 2) / 5 - 719_468
    ensures StartOf(12 * y + k + 3) == if k == 11 then DaysBefore(y + 1) - 719_468 else DaysBefore(y) + (153 * (k + 1) + 2) / 5 - 719_468
  {
    hide DaysBefore;
    Quotient(12 * y + k, 12, y, k);
    if k == 11 { Quotient(12 * y + k + 1, 12, y + 1, 0); } else { Quotient(12 * y + k + 1, 12, y, k + 1); }
  }

  lemma LengthInYear(y: int, k: int)
    requires 0 <= k <= 11
    ensures k == 11 ==> Length(12 * y + k + 2) == if Leap(y + 1) then 29 else 28
    ensures k < 11 ==> Length(12 * y + k + 2) == (153 * (k + 1) + 2) / 5 - (153 * k + 2) / 5
  {
    hide Leap;
    if k < 10 { Quotient(12 * y + k + 2, 12, y, k + 2); } else { Quotient(12 * y + k + 2, 12, y + 1, k - 10); }
  }

  /** Months follow one another: thirty, thirty-one, or the days of February, twelve to a year. */
  lemma NextMonth(month: int)
    ensures StartOf(month + 1) == StartOf(month) + Length(month)
  {
    hide DaysBefore, Leap, StartOf, Length;
    var y, k := (month - 2) / 12, (month - 2) % 12;
    YearLength(y);
    StartInYear(y, k);
    LengthInYear(y, k);
  }

  lemma CenturyOf(d: int)
    requires 0 <= d < 146_097
    ensures var century := AtMost(d / 36_524, 3); var c := d - 36_524 * century;
      0 <= century <= 3 && 0 <= c <= 36_524 && (c == 36_524 ==> century == 3)
  {
  }

  lemma CycleOf(c: int)
    requires 0 <= c <= 36_524
    ensures var cycle := c / 1_461; var q := c - 1_461 * cycle;
      0 <= cycle <= 24 && 0 <= q <= 1_460 && (cycle == 24 && q == 1_460 ==> c == 36_524)
  {
  }

  lemma YearOf(q: int)
    requires 0 <= q <= 1_460
    ensures var year := AtMost(q / 365, 3); var n := q - 365 * year;
      0 <= year <= 3 && 0 <= n <= 365 && (n == 365 ==> year == 3 && q == 1_460)
  {
  }

  lemma DaysInEra(century: int, cycle: int, year: int)
    requires 0 <= century <= 3 && 0 <= cycle <= 24 && 0 <= year <= 3
    ensures DaysBefore(100 * century + 4 * cycle + year) == 36_524 * century + 1_461 * cycle + 365 * year
  {
    var y := 100 * century + 4 * cycle + year;
    Quotient(y, 4, 25 * century + cycle, year);
    Quotient(y, 100, century, 4 * cycle + year);
    Quotient(y, 400, 0, y);
  }

  /** The day number inside an era is the days of its years before, plus the day of the year; the
      day 29 February is there in leap years only. */
  lemma EraDay(d: int)
    requires 0 <= d < 146_097
    ensures var (y, n) := YearAndDay(d);
      0 <= y < 400 && d == DaysBefore(y) + n && 0 <= n < 365 + if Leap(y + 1) then 1 else 0
  {
    hide DaysBefore, Leap, AtMost;
    var century := AtMost(d / 36_524, 3);
    var c := d - 36_524 * century;
    var cycle := c / 1_461;
    var q := c - 1_461 * cycle;
    CenturyOf(d);
    CycleOf(c);
    YearOf(q);
    DaysInEra(century, cycle, AtMost(q / 365, 3));
    LeapInEra(century, cycle, AtMost(q / 365, 3));
  }

  lemma LeapInEra(century: int, cycle: int, year: int)
    requires 0 <= century <= 3 && 0 <= cycle <= 24 && 0 <= year <= 3
    ensures Leap(100 * century + 4 * cycle + year + 1) <==> year == 3 && (cycle < 24 || century == 3)
  {
    var y := 100 * century + 4 * cycle + year + 1;
    Quotient(y, 4, 25 * century + cycle + (if year == 3 then 1 else 0), if year == 3 then 0 else year + 1);
    if cycle == 24 && year == 3 {
      Quotient(y, 100, century + 1, 0);
    } else {
      Quotient(y, 100, century, 4 * cycle + year + 1);
    }
  }

  lemma DaysOfEra(era: int, y: int)
    requires 0 <= y < 400
    ensures DaysBefore(400 * era + y) == 146_097 * era + DaysBefore(y)
    ensures Leap(400 * era + y + 1) == Leap(y + 1)
  {
    Quotient(400 * era + y, 4, 100 * era + y / 4, y % 4);
    Quotient(400 * era + y, 100, 4 * era + y / 100, y % 100);
    Quotient(400 * era + y, 400, era, y);
    Quotient(400 * era + y + 1, 4, 100 * era + (y + 1) / 4, (y + 1) % 4);
    Quotient(400 * era + y + 1, 100, 4 * era + (y + 1) / 100, (y + 1) % 100);
    Quotient(400 * era + y + 1, 400, era + (y + 1) / 400, (y + 1) % 400);
  }

  lemma DayInMonth(n: int)
    requires 0 <= n <= 365
    ensures var k := (5 * n + 2) / 153; 0 <= k <= 11 && (153 * k + 2) / 5 <= n && (k < 11 ==> n < (153 * (k + 1) + 2) / 5)
  {
  }

  /** The month found for a day contains it. */
  lemma MonthContains(day: int)
    ensures var m := MonthOfDay(day); StartOf(m) <= day < StartOf(m + 1)
  {
    hide DaysBefore, Leap, YearAndDay, StartOf;
    var z := day + 719_468;
    var era, d := z / 146_097, z % 146_097;
    EraDay(d);
    var (y, n) := YearAndDay(d);
    DaysOfEra(era, y);
    YearLength(400 * era + y);
    DayInMonth(n);
    StartInYear(400 * era + y, (5 * n + 2) / 153);
  }

  lemma {:induction false} StartsAscend(a: int, b: int)
    requires a <= b
    ensures StartOf(a) <= StartOf(b)
    decreases b - a
  {
    hide StartOf;
    if a < b {
      StartsAscend(a, b - 1);
      NextMonth(b - 1);
    }
  }

  lemma Epoch()
    ensures StartOf(23_640) == 0
  {
  }

  /** A day lies in a month exactly when it is one of the month's days, month after month with the
      Gregorian lengths, January 1970 starting at day 0. */
  lemma MonthIsCivil(day: int, month: int)
    ensures MonthOfDay(day) == month <==> StartOf(month) <= day < StartOf(month) + Length(month)
    ensures StartOf(12 * 1970) == 0 && StartOf(month + 1) == StartOf(month) + Length(month)
  {
    hide StartOf, Length, MonthOfDay;
    Epoch();
    var m := MonthOfDay(day);
    MonthContains(day);
    NextMonth(month);
    if m < month { StartsAscend(m + 1, month); }
    if month < m { StartsAscend(month + 1, m); }
  }
}
