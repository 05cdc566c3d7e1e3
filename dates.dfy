/**
 * The proleptic Gregorian calendar behind JavaScript's local-time `Date`:
 * days are numbered from 1970-01-01 (a Thursday), months are 0-based as in
 * `getMonth()`, and `new Date(y, m, d)` accepts out-of-range months and days.
 */
module Dates {
  const MinutesPerDay: int := 1440

  predicate IsLeap(y: int) {
    (y % 4 == 0 && y % 100 != 0) || y % 400 == 0
  }

  function DaysInYear(y: int): (n: int)
    ensures n == 365 || n == 366
  {
    if IsLeap(y) then 366 else 365
  }

  /** The number of days of month `m` (0 = January) of year `y`. */
  function DaysInMonth(y: int, m: int): (n: int)
    requires 0 <= m < 12
    ensures 28 <= n <= 31
    ensures m == 1 ==> (n == 29 <==> IsLeap(y))
  {
    if m == 1 then (if IsLeap(y) then 29 else 28)
    else if m == 3 || m == 5 || m == 8 || m == 10 then 30
    else 31
  }

  /** The days of year `y` before the first of month `m`. */
  function MonthStart(y: int, m: int): (n: int)
    requires 0 <= m <= 12
    ensures 0 <= n
  {
    if m == 0 then 0 else MonthStart(y, m - 1) + DaysInMonth(y, m - 1)
  }

  lemma YearLength(y: int)
    ensures MonthStart(y, 12) == DaysInYear(y)
  {
    var feb := DaysInMonth(y, 1);
    assert MonthStart(y, 1) == 31;
    assert MonthStart(y, 2) == 31 + feb;
    assert MonthStart(y, 3) == 62 + feb;
    assert MonthStart(y, 4) == 92 + feb;
    assert MonthStart(y, 5) == 123 + feb;
    assert MonthStart(y, 6) == 153 + feb;
    assert MonthStart(y, 7) == 184 + feb;
    assert MonthStart(y, 8) == 215 + feb;
    assert MonthStart(y, 9) == 245 + feb;
    assert MonthStart(y, 10) == 276 + feb;
    assert MonthStart(y, 11) == 306 + feb;
    assert MonthStart(y, 12) == 337 + feb;
  }

  /** The day number of the first of January of year `y`. */
  function YearStart(y: int): (n: int)
    decreases if y >= 1970 then y - 1970 else 1970 - y
  {
    if y == 1970 then 0
    else if y > 1970 then YearStart(y - 1) + DaysInYear(y - 1)
    else YearStart(y + 1) - DaysInYear(y)
  }

  lemma YearStep(y: int)
    ensures YearStart(y + 1) == YearStart(y) + DaysInYear(y)
  {
  }

  /** A calendar date as `getFullYear()`, `getMonth()` and `getDate()` report it. */
  datatype Civil = Civil(year: int, month: int, day: int)
  {
    predicate Valid() {
      0 <= month < 12 && 1 <= day <= DaysInMonth(year, month)
    }
  }

  /** The number of days since 1970-01-01 of a valid date. */
  function DayNumber(c: Civil): (n: int)
    requires c.Valid()
  {
    YearStart(c.year) + MonthStart(c.year, c.month) + c.day - 1
  }

  /** `getDay()`: 0 is Sunday, 1 Monday, ..., 6 Saturday. */
  function Weekday(n: int): (w: int)
    ensures 0 <= w < 7
  {
    (n + 4) % 7
  }

  /** Seven days on or back fall on the same weekday. */
  lemma WeekdayPeriodic(n: int)
    ensures Weekday(n + 7) == Weekday(n) && Weekday(n - 7) == Weekday(n)
  {
    var q := (n + 4) / 7;
    assert n + 4 == 7 * q + (n + 4) % 7;
    assert n + 7 + 4 == 7 * (q + 1) + (n + 4) % 7;
    assert n - 7 + 4 == 7 * (q - 1) + (n + 4) % 7;
  }

  /** The day number of `new Date(y, m, 1)` for any month `m`, which carries into the year. */
  function FirstOfMonth(y: int, m: int): (n: int)
  {
    DayNumber(Civil(y + m / 12, m % 12, 1))
  }

  /** The day number of `new Date(y, m, d)` for any month and day, both of which carry. */
  function MakeDay(y: int, m: int, d: int): (n: int)
  {
    FirstOfMonth(y, m) + d - 1
  }

  /** The first of the following month is the first of this one plus its length. */
  lemma NextMonth(y: int, m: int)
    requires 0 <= m < 12
    ensures FirstOfMonth(y, m + 1) == FirstOfMonth(y, m) + DaysInMonth(y, m)
  {
    assert m / 12 == 0 && m % 12 == m;
    if m == 11 {
      YearStep(y);
      YearLength(y);
      assert FirstOfMonth(y, 12) == YearStart(y + 1);
      assert FirstOfMonth(y, 11) == YearStart(y) + MonthStart(y, 11);
    } else {
      assert (m + 1) / 12 == 0 && (m + 1) % 12 == m + 1;
      assert FirstOfMonth(y, m + 1) == YearStart(y) + MonthStart(y, m + 1);
    }
  }

  /**
   * The date `new Date(y, m, d)` denotes, for a day that overflows the month
   * by at most four weeks in either direction.
   */
  function Normalize(y: int, m: int, d: int): (c: Civil)
    requires -27 <= d <= 56
    ensures c.Valid()
  {
    var y1 := y + m / 12;
    var m1 := m % 12;
    if d < 1 then
      var m0 := if m1 == 0 then 11 else m1 - 1;
      var y0 := if m1 == 0 then y1 - 1 else y1;
      Civil(y0, m0, d + DaysInMonth(y0, m0))
    else if d <= DaysInMonth(y1, m1) then Civil(y1, m1, d)
    else
      var m2 := if m1 == 11 then 0 else m1 + 1;
      var y2 := if m1 == 11 then y1 + 1 else y1;
      Civil(y2, m2, d - DaysInMonth(y1, m1))
  }

  /** `Normalize` finds exactly the day JavaScript's `new Date(y, m, d)` lands on. */
  lemma NormalizeDay(y: int, m: int, d: int)
    requires -27 <= d <= 56
    ensures DayNumber(Normalize(y, m, d)) == MakeDay(y, m, d)
  {
    var y1 := y + m / 12;
    var m1 := m % 12;
    assert FirstOfMonth(y, m) == FirstOfMonth(y1, m1);
    if d < 1 {
      if m1 == 0 {
        NextMonth(y1 - 1, 11);
        assert FirstOfMonth(y1 - 1, 12) == FirstOfMonth(y1, 0);
      } else {
        NextMonth(y1, m1 - 1);
      }
    } else if d > DaysInMonth(y1, m1) {
      NextMonth(y1, m1);
      if m1 == 11 {
        assert FirstOfMonth(y1, 12) == FirstOfMonth(y1 + 1, 0);
      }
    }
  }

  /** A valid date is its own normal form. */
  lemma NormalizeValid(c: Civil)
    requires c.Valid()
    ensures Normalize(c.year, c.month, c.day) == c
  {
  }

  /** The start (00:00) of the day holding minute `t`, as `setHours(0, 0, 0, 0)` finds it. */
  function DayStart(t: int): (s: int)
    ensures s <= t < s + MinutesPerDay && s % MinutesPerDay == 0
  {
    t - t % MinutesPerDay
  }
}
