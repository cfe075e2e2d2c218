/** The month grid the calendar screen renders: `startDay` blank cells, then one cell per
    day carrying its date key, the "today" mark and the number of cached bookings. */
module Grid {
  import opened Calendar
  import opened Cache

  /** A grid cell. A day with `count > 0` gets the "has booking" mark and the title
      "`count` броней". */
  datatype Cell = Blank | Day(day: int, key: string, today: bool, count: nat)

  /** The "today" mark: the host date has this day, month and year. */
  predicate IsToday(year: int, month: int, day: int, today: Date)
  {
    day == today.day && month == today.month && year == today.year
  }

  /** The cell of day `day`. */
  function DayCell(year: int, month: int, day: int, cache: seq<Booking>, today: Date): (c: Cell)
    requires 0 <= month < 12 && 1 <= day <= 31
    ensures c.Day? && c.day == day && c.key == DateKey(year, month, day)
    ensures c.count > 0 <==> exists i :: 0 <= i < |cache| && cache[i].date == c.key
  {
    var key := DateKey(year, month, day);
    Day(day, key, IsToday(year, month, day, today), BookingCount(cache, key))
  }

  /** The cells of a month whose first day falls in column `start` and which has `days`
      days: `start` blank cells, then the cells of days 1..`days` in order. */
  ghost predicate IsLayout(cells: seq<Cell>, year: int, month: int, start: int, days: int,
                           cache: seq<Booking>, today: Date)
    requires 0 <= month < 12 && 0 <= start && 0 <= days <= 31
  {
    |cells| == start + days
    && (forall i :: 0 <= i < start ==> cells[i] == Blank)
    && (forall i :: start <= i < |cells| ==> cells[i] == DayCell(year, month, i - start + 1, cache, today))
  }

  /** What the calendar shows for (`year`, `month`): exactly `StartDay` blank cells, then
      the cells of days 1..`GridDays` in order. */
  ghost predicate IsGrid(cells: seq<Cell>, year: int, month: int, cache: seq<Booking>, today: Date)
    requires 0 <= month < 12
  {
    IsLayout(cells, year, month, StartDay(year, month), GridDays(year, month), cache, today)
  }

  /** `renderCalendar`: the first day's weekday gives the number of leading blank cells,
      "day 0 of next month" the number of days. */
  method BuildGrid(year: int, month: int, cache: seq<Booking>, today: Date) returns (cells: seq<Cell>)
    requires 0 <= month < 12
    ensures IsGrid(cells, year, month, cache, today)
  {
    var firstDay := FirstWeekday(CtorYear(year), month);
    var daysInMonth := GridDays(year, month);
    var startDay := if firstDay == 0 then 6 else firstDay - 1;
    assert startDay == StartDay(year, month);
    cells := LayOut(year, month, startDay, daysInMonth, cache, today);
    LayoutOfCells(year, month, startDay, daysInMonth, cache, today);
  }

  /** `n` blank cells. */
  function Blanks(n: nat): (r: seq<Cell>)
    ensures |r| == n && forall i :: 0 <= i < n ==> r[i] == Blank
  {
    if n == 0 then [] else Blanks(n - 1) + [Blank]
  }

  /** The cells of days 1..`n`, in order. */
  ghost function DayCells(year: int, month: int, n: nat, cache: seq<Booking>, today: Date): seq<Cell>
    requires 0 <= month < 12 && n <= 31
  {
    if n == 0 then [] else DayCells(year, month, n - 1, cache, today) + [DayCell(year, month, n, cache, today)]
  }

  lemma {:induction false} DayCellsAt(year: int, month: int, n: nat, cache: seq<Booking>, today: Date)
    requires 0 <= month < 12 && n <= 31
    ensures |DayCells(year, month, n, cache, today)| == n
    ensures forall j :: 0 <= j < n ==> DayCells(year, month, n, cache, today)[j] == DayCell(year, month, j + 1, cache, today)
  {
    if n > 0 {
      DayCellsAt(year, month, n - 1, cache, today);
    }
  }

  /** Blanks followed by the day cells form the layout. */
  lemma LayoutOfCells(year: int, month: int, start: nat, days: nat, cache: seq<Booking>, today: Date)
    requires 0 <= month < 12 && days <= 31
    ensures IsLayout(Blanks(start) + DayCells(year, month, days, cache, today), year, month, start, days, cache, today)
  {
    var dayCells := DayCells(year, month, days, cache, today);
    var cells := Blanks(start) + dayCells;
    DayCellsAt(year, month, days, cache, today);
    forall i | start <= i < |cells|
      ensures cells[i] == DayCell(year, month, i - start + 1, cache, today)
    {
      assert cells[i] == dayCells[i - start];
    }
  }

  /** The two loops of `renderCalendar`: one appends the leading blanks, the second
      appends the days, so the result is the blanks followed by the day cells. */
  method LayOut(year: int, month: int, startDay: nat, daysInMonth: nat, cache: seq<Booking>, today: Date)
    returns (cells: seq<Cell>)
    requires 0 <= month < 12 && daysInMonth <= 31
    ensures cells == Blanks(startDay) + DayCells(year, month, daysInMonth, cache, today)
  {
    cells := [];
    var i := 0;
    while i < startDay
      invariant 0 <= i <= startDay
      invariant cells == Blanks(i)
    {
      cells := cells + [Blank];
      i := i + 1;
    }
    var day := 1;
    while day <= daysInMonth
      invariant 1 <= day <= daysInMonth + 1
      invariant cells == Blanks(startDay) + DayCells(year, month, day - 1, cache, today)
    {
      var dateStr := DateKey(year, month, day);
      var count := BookingCount(cache, dateStr);
      var cell := Day(day, dateStr, IsToday(year, month, day, today), count);
      assert cell == DayCell(year, month, day, cache, today);
      cells := cells + [cell];
      day := day + 1;
    }
  }

  /** A cached booking dated on a day of the shown month marks that day's cell, and only
      that one: every other cell's key differs from the booking's date. */
  lemma BookingMarksItsDay(cells: seq<Cell>, year: int, month: int, cache: seq<Booking>, today: Date, b: Booking, d: int)
    requires 0 <= month < 12 && IsGrid(cells, year, month, cache, today)
    requires b in cache && 1 <= d <= GridDays(year, month) && b.date == DateKey(year, month, d)
    ensures var c := cells[StartDay(year, month) + d - 1]; c.Day? && c.count > 0
    ensures forall i :: StartDay(year, month) <= i < |cells| && i != StartDay(year, month) + d - 1 ==>
              cells[i].Day? && cells[i].key != b.date
  {
    BookingMarksItsCell(cells, year, month, StartDay(year, month), GridDays(year, month), cache, today, b, d);
  }

  lemma BookingMarksItsCell(cells: seq<Cell>, year: int, month: int, start: nat, days: nat,
                            cache: seq<Booking>, today: Date, b: Booking, d: int)
    requires 0 <= month < 12 && days <= 31 && IsLayout(cells, year, month, start, days, cache, today)
    requires b in cache && 1 <= d <= days && b.date == DateKey(year, month, d)
    ensures var c := cells[start + d - 1]; c.Day? && c.count > 0
    ensures forall i :: start <= i < |cells| && i != start + d - 1 ==> cells[i].Day? && cells[i].key != b.date
  {
    var k :| 0 <= k < |cache| && cache[k] == b;
    assert cells[start + d - 1] == DayCell(year, month, d, cache, today);
    forall i | start <= i < |cells| && i != start + d - 1
      ensures cells[i].Day? && cells[i].key != b.date
    {
      var e := i - start + 1;
      assert cells[i] == DayCell(year, month, e, cache, today);
      if DateKey(year, month, e) == DateKey(year, month, d) {
        DateKeyInjective(year, month, e, year, month, d);
      }
    }
  }
}
