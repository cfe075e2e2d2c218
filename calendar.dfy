/** Gregorian calendar arithmetic behind the month grid: month lengths, the weekday of
    the first of a month as the host's `Date` reports it, the Monday-first column of that
    day, the month-navigation steps and the `YYYY-MM-DD` key of a day. Months are
    numbered 0..11 as in JavaScript. */
module Calendar {
  import opened Text

  /** The host's notion of "today": full year, month 0..11 and day of the month. */
  datatype Date = Date(year: int, month: int, day: int)

  predicate IsLeapYear(y: int)
  {
    y % 4 == 0 && (y % 100 != 0 || y % 400 == 0)
  }

  function YearLength(y: int): int
  {
    if IsLeapYear(y) then 366 else 365
  }

  /** Number of days of month `m` of year `y`. */
  function DaysInMonth(y: int, m: int): (n: int)
    requires 0 <= m < 12
    ensures 28 <= n <= 31
  {
    if m == 1 then (if IsLeapYear(y) then 29 else 28)
    else if m == 3 || m == 5 || m == 8 || m == 10 then 30
    else 31
  }

  /** Days from 0001-01-01 (proleptic Gregorian, a Monday) to January 1st of year `y`.
      For a positive divisor Dafny's `/` rounds down, so this holds for every year,
      including year 0 and the years before it. */
  function DaysBeforeYear(y: int): int
  {
    365 * (y - 1) + (y - 1) / 4 - (y - 1) / 100 + (y - 1) / 400
  }

  /** Days from January 1st to the first of month `m` of year `y`. */
  function DaysBeforeMonth(y: int, m: int): int
    requires 0 <= m <= 12
  {
    if m == 0 then 0 else DaysBeforeMonth(y, m - 1) + DaysInMonth(y, m - 1)
  }

  /** Days from 0001-01-01 to the first of month `m` of year `y`. */
  function FirstDayNumber(y: int, m: int): int
    requires 0 <= m < 12
  {
    DaysBeforeYear(y) + DaysBeforeMonth(y, m)
  }

  /** `new Date(y, m, 1).getDay()`: weekday of the first of the month, Sunday = 0. */
  function FirstWeekday(y: int, m: int): (w: int)
    requires 0 <= m < 12
    ensures 0 <= w < 7
  {
    (FirstDayNumber(y, m) + 1) % 7
  }

  /** The year the `Date(year, month, day)` constructor actually uses: it reads the
      years 0..99 as 1900..1999. */
  function CtorYear(y: int): int
  {
    if 0 <= y <= 99 then 1900 + y else y
  }

  /** `new Date(year, month + 1, 0).getDate()`: the last day of the month before the
      first of the next one, i.e. the length of the month in the year the constructor uses. */
  function GridDays(year: int, month: int): int
    requires 0 <= month < 12
  {
    DaysInMonth(CtorYear(year), month)
  }

  /** The Monday-first column of the first of the month: Sunday (0) goes to the last
      column, every other weekday moves one column left. It is the number of days since
      the last Monday. */
  function StartDay(year: int, month: int): (s: int)
    requires 0 <= month < 12
    ensures 0 <= s <= 6
    ensures s == FirstDayNumber(CtorYear(year), month) % 7
  {
    var firstDay := FirstWeekday(CtorYear(year), month);
    if firstDay == 0 then 6 else firstDay - 1
  }

  // ---------------------------------------------------------------------------
  // Month navigation
  // ---------------------------------------------------------------------------

  /** Position of a (month, year) pair on a single line of months. */
  function MonthIndex(month: int, year: int): int
  {
    12 * year + month
  }

  /** The "next month" button: month + 1, wrapping past 11 into the next year. */
  function Next(month: int, year: int): (r: (int, int))
    requires 0 <= month < 12
    ensures 0 <= r.0 < 12
    ensures MonthIndex(r.0, r.1) == MonthIndex(month, year) + 1
  {
    var m := month + 1;
    if m > 11 then (0, year + 1) else (m, year)
  }

  /** The "previous month" button: month - 1, wrapping below 0 into the previous year. */
  function Prev(month: int, year: int): (r: (int, int))
    requires 0 <= month < 12
    ensures 0 <= r.0 < 12
    ensures MonthIndex(r.0, r.1) == MonthIndex(month, year) - 1
  {
    var m := month - 1;
    if m < 0 then (11, year - 1) else (m, year)
  }

  /** A month in range is determined by its index. */
  lemma MonthIndexInjective(m1: int, y1: int, m2: int, y2: int)
    requires 0 <= m1 < 12 && 0 <= m2 < 12
    requires MonthIndex(m1, y1) == MonthIndex(m2, y2)
    ensures m1 == m2 && y1 == y2
  {
  }

  /** Next and previous undo each other, and wrap at the year boundaries. */
  lemma NavigationRoundTrip(month: int, year: int)
    requires 0 <= month < 12
    ensures Prev(Next(month, year).0, Next(month, year).1) == (month, year)
    ensures Next(Prev(month, year).0, Prev(month, year).1) == (month, year)
    ensures month == 11 ==> Next(month, year) == (0, year + 1)
    ensures month == 0 ==> Prev(month, year) == (11, year - 1)
  {
    var n := Next(month, year);
    var pn := Prev(n.0, n.1);
    MonthIndexInjective(pn.0, pn.1, month, year);
    var p := Prev(month, year);
    var np := Next(p.0, p.1);
    MonthIndexInjective(np.0, np.1, month, year);
  }

  // ---------------------------------------------------------------------------
  // Day counting: month lengths chain the firsts of consecutive months
  // ---------------------------------------------------------------------------

  /** Consecutive Januaries are one year length apart. */
  lemma YearStep(y: int)
    ensures DaysBeforeYear(y + 1) == DaysBeforeYear(y) + YearLength(y)
  {
    StepAcross4(y);
    StepAcross100(y);
    StepAcross400(y);
  }

  /** Going from `y - 1` to `y` crosses a multiple of 4 exactly when `y` is one. */
  lemma StepAcross4(y: int)
    ensures y / 4 - (y - 1) / 4 == if y % 4 == 0 then 1 else 0
  {
    var q, r := y / 4, y % 4;
    if r == 0 {
      assert y - 1 == 4 * (q - 1) + 3;
    } else {
      assert y - 1 == 4 * q + (r - 1);
    }
  }

  lemma StepAcross100(y: int)
    ensures y / 100 - (y - 1) / 100 == if y % 100 == 0 then 1 else 0
  {
    var q, r := y / 100, y % 100;
    if r == 0 {
      assert y - 1 == 100 * (q - 1) + 99;
    } else {
      assert y - 1 == 100 * q + (r - 1);
    }
  }

  lemma StepAcross400(y: int)
    ensures y / 400 - (y - 1) / 400 == if y % 400 == 0 then 1 else 0
  {
    var q, r := y / 400, y % 400;
    if r == 0 {
      assert y - 1 == 400 * (q - 1) + 399;
    } else {
      assert y - 1 == 400 * q + (r - 1);
    }
  }

  lemma DaysBeforeDecember(y: int)
    ensures DaysBeforeMonth(y, 11) + 31 == YearLength(y)
  {
    assert DaysBeforeMonth(y, 1) == 31;
    assert DaysBeforeMonth(y, 2) == 31 + DaysInMonth(y, 1);
    assert DaysBeforeMonth(y, 3) == DaysBeforeMonth(y, 2) + 31;
    assert DaysBeforeMonth(y, 4) == DaysBeforeMonth(y, 3) + 30;
    assert DaysBeforeMonth(y, 5) == DaysBeforeMonth(y, 4) + 31;
    assert DaysBeforeMonth(y, 6) == DaysBeforeMonth(y, 5) + 30;
    assert DaysBeforeMonth(y, 7) == DaysBeforeMonth(y, 6) + 31;
    assert DaysBeforeMonth(y, 8) == DaysBeforeMonth(y, 7) + 31;
    assert DaysBeforeMonth(y, 9) == DaysBeforeMonth(y, 8) + 30;
    assert DaysBeforeMonth(y, 10) == DaysBeforeMonth(y, 9) + 31;
    assert DaysBeforeMonth(y, 11) == DaysBeforeMonth(y, 10) + 30;
  }

  /** "Day 0 of next month" is the last day of this month: the first of the next month
      comes exactly `DaysInMonth` days after the first of this one, across a year
      boundary too. */
  lemma {:induction false} MonthStep(y: int, m: int)
    requires 0 <= m < 12
    ensures FirstDayNumber(Next(m, y).1, Next(m, y).0) == FirstDayNumber(y, m) + DaysInMonth(y, m)
  {
    if m == 11 {
      YearStep(y);
      DaysBeforeDecember(y);
    }
  }

  /** The grids of consecutive months fit together: the next month starts in the column
      where this one would continue. The constructor's two-digit-year mapping breaks this
      between years 99 and 100 and between -1 and 0, so those are excluded. */
  lemma StartDayChains(year: int, month: int)
    requires 0 <= month < 12
    requires CtorYear(year) == year && CtorYear(Next(month, year).1) == Next(month, year).1
    ensures StartDay(Next(month, year).1, Next(month, year).0)
            == (StartDay(year, month) + GridDays(year, month)) % 7
  {
    var next := Next(month, year);
    MonthStep(year, month);
    ShiftMod7(FirstDayNumber(year, month), StartDay(year, month), DaysInMonth(year, month),
              FirstDayNumber(next.1, next.0));
  }

  /** Moving `d` days on from a day in column `r` lands in column `(r + d) % 7`. */
  lemma ShiftMod7(n: int, r: int, d: int, m: int)
    requires r == n % 7 && m == n + d
    ensures m % 7 == (r + d) % 7
  {
  }

  /** The reference calendar for 2024, a leap year: the Monday-first column of the first
      of each month (2024-01-01 was a Monday), and a 29-day February. */
  lemma ReferenceCalendar2024()
    ensures StartDay(2024, 0) == 0 && StartDay(2024, 1) == 3 && StartDay(2024, 2) == 4
         && StartDay(2024, 3) == 0 && StartDay(2024, 4) == 2 && StartDay(2024, 5) == 5
         && StartDay(2024, 6) == 0 && StartDay(2024, 7) == 3 && StartDay(2024, 8) == 6
         && StartDay(2024, 9) == 1 && StartDay(2024, 10) == 4 && StartDay(2024, 11) == 6
    ensures GridDays(2024, 1) == 29
  {
    assert FirstDayNumber(2024, 0) == 738885;
    StartDayChains(2024, 0);
    assert StartDay(2024, 1) == 3;
    StartDayChains(2024, 1);
    assert StartDay(2024, 2) == 4;
    StartDayChains(2024, 2);
    assert StartDay(2024, 3) == 0;
    StartDayChains(2024, 3);
    assert StartDay(2024, 4) == 2;
    StartDayChains(2024, 4);
    assert StartDay(2024, 5) == 5;
    StartDayChains(2024, 5);
    assert StartDay(2024, 6) == 0;
    StartDayChains(2024, 6);
    assert StartDay(2024, 7) == 3;
    StartDayChains(2024, 7);
    assert StartDay(2024, 8) == 6;
    StartDayChains(2024, 8);
    assert StartDay(2024, 9) == 1;
    StartDayChains(2024, 9);
    assert StartDay(2024, 10) == 4;
    StartDayChains(2024, 10);
    assert StartDay(2024, 11) == 6;
  }

  /** The reference calendar for 2025, a common year (2025-01-01 was a Wednesday), with a
      28-day February. */
  lemma ReferenceCalendar2025()
    ensures StartDay(2025, 0) == 2 && StartDay(2025, 1) == 5 && StartDay(2025, 2) == 5
         && StartDay(2025, 3) == 1 && StartDay(2025, 4) == 3 && StartDay(2025, 5) == 6
         && StartDay(2025, 6) == 1 && StartDay(2025, 7) == 4 && StartDay(2025, 8) == 0
         && StartDay(2025, 9) == 2 && StartDay(2025, 10) == 5 && StartDay(2025, 11) == 0
    ensures GridDays(2025, 1) == 28
  {
    assert FirstDayNumber(2025, 0) == 739251;
    StartDayChains(2025, 0);
    assert StartDay(2025, 1) == 5;
    StartDayChains(2025, 1);
    assert StartDay(2025, 2) == 5;
    StartDayChains(2025, 2);
    assert StartDay(2025, 3) == 1;
    StartDayChains(2025, 3);
    assert StartDay(2025, 4) == 3;
    StartDayChains(2025, 4);
    assert StartDay(2025, 5) == 6;
    StartDayChains(2025, 5);
    assert StartDay(2025, 6) == 1;
    StartDayChains(2025, 6);
    assert StartDay(2025, 7) == 4;
    StartDayChains(2025, 7);
    assert StartDay(2025, 8) == 0;
    StartDayChains(2025, 8);
    assert StartDay(2025, 9) == 2;
    StartDayChains(2025, 9);
    assert StartDay(2025, 10) == 5;
    StartDayChains(2025, 10);
    assert StartDay(2025, 11) == 0;
  }

  /** `${year}-${String(month + 1).padStart(2, '0')}-${String(day).padStart(2, '0')}`:
      the key under which a day's bookings are looked up. The year is not padded. */
  function DateKey(year: int, month: int, day: int): string
    requires 0 <= month < 12 && 1 <= day <= 31
  {
    IntToString(year) + "-" + Pad2(month + 1) + "-" + Pad2(day)
  }

  lemma DateKeyParts(year: int, month: int, day: int)
    requires 0 <= month < 12 && 1 <= day <= 31
    ensures var k := DateKey(year, month, day);
      |k| == |IntToString(year)| + 6
      && k[..|k| - 6] == IntToString(year)
      && k[|k| - 5..|k| - 3] == Pad2(month + 1)
      && k[|k| - 2..] == Pad2(day)
  {
  }

  /** Different days have different keys, so each cell counts only its own bookings. */
  lemma DateKeyInjective(y1: int, m1: int, d1: int, y2: int, m2: int, d2: int)
    requires 0 <= m1 < 12 && 1 <= d1 <= 31 && 0 <= m2 < 12 && 1 <= d2 <= 31
    requires DateKey(y1, m1, d1) == DateKey(y2, m2, d2)
    ensures y1 == y2 && m1 == m2 && d1 == d2
  {
    DateKeyParts(y1, m1, d1);
    DateKeyParts(y2, m2, d2);
    IntToStringInjective(y1, y2);
  }

  /** For four-digit years the key is an ISO 8601 calendar date `YYYY-MM-DD`, the format
      bookings carry in their `date` field. */
  lemma DateKeyIsIso(year: int, month: int, day: int)
    requires 1000 <= year <= 9999 && 0 <= month < 12 && 1 <= day <= 31
    ensures var k := DateKey(year, month, day);
      |k| == 10 && k[4] == '-' && k[7] == '-'
      && forall i :: 0 <= i < 10 && i != 4 && i != 7 ==> IsDigit(k[i])
  {
    assert |NatToString(year / 1000)| == 1;
    assert |NatToString(year / 100)| == 2;
    assert |NatToString(year / 10)| == 3;
  }
}
