/** The day modal: the cached bookings of one date, each joined to its room and sorted by
    start time, or a "no bookings" placeholder. */
module DayView {
  import opened Wrappers
  import opened Text
  import opened Calendar
  import opened Cache
  import opened Grid

  /** `{ ...b, room: rooms.find(r => r.id === b.roomId) }`; the room is absent when no
      room has the booking's `roomId`. */
  datatype DayEntry = DayEntry(booking: Booking, room: Option<Room>)

  /** What the modal shows. `RenderError` is the `TypeError` the template raises when an
      entry has no room: the list is not filled and the modal does not open. */
  datatype DayModal = NoBookings | Listing(entries: seq<DayEntry>) | RenderError

  function Join(bs: seq<Booking>): (r: seq<DayEntry>)
    ensures |r| == |bs|
    ensures forall i :: 0 <= i < |bs| ==> r[i] == DayEntry(bs[i], FindRoom(bs[i].roomId))
  {
    seq(|bs|, i requires 0 <= i < |bs| => DayEntry(bs[i], FindRoom(bs[i].roomId)))
  }

  lemma JoinMembers(bs: seq<Booking>)
    ensures forall e: DayEntry :: e in Join(bs) <==> e.booking in bs && e.room == FindRoom(e.booking.roomId)
  {
    var r := Join(bs);
    forall e: DayEntry | e.booking in bs && e.room == FindRoom(e.booking.roomId)
      ensures e in r
    {
      var i :| 0 <= i < |bs| && bs[i] == e.booking;
      assert r[i] == e;
    }
  }

  predicate SortedByStart(s: seq<DayEntry>)
  {
    forall i, j :: 0 <= i < j < |s| ==> LessEq(s[i].booking.timeStart, s[j].booking.timeStart)
  }

  lemma InsertInFront(e: DayEntry, s: seq<DayEntry>)
    requires SortedByStart(s) && |s| > 0 && LessEq(e.booking.timeStart, s[0].booking.timeStart)
    ensures SortedByStart([e] + s)
  {
    forall j | 0 <= j < |s|
      ensures LessEq(e.booking.timeStart, s[j].booking.timeStart)
    {
      if j > 0 {
        LessEqTransitive(e.booking.timeStart, s[0].booking.timeStart, s[j].booking.timeStart);
      }
    }
  }

  lemma InsertBehind(e: DayEntry, s: seq<DayEntry>, rest: seq<DayEntry>)
    requires SortedByStart(s) && |s| > 0 && !LessEq(e.booking.timeStart, s[0].booking.timeStart)
    requires SortedByStart(rest) && multiset(rest) == multiset(s[1..]) + multiset{e}
    ensures SortedByStart([s[0]] + rest)
  {
    LessEqTotal(e.booking.timeStart, s[0].booking.timeStart);
    forall j | 0 <= j < |rest|
      ensures LessEq(s[0].booking.timeStart, rest[j].booking.timeStart)
    {
      assert rest[j] in multiset(rest);
      if rest[j] != e {
        assert rest[j] in multiset(s[1..]);
        var k :| 0 <= k < |s[1..]| && s[1..][k] == rest[j];
        assert s[k + 1] == rest[j];
      }
    }
  }

  /** Insert `e` before the first entry that does not start earlier. */
  function InsertByStart(e: DayEntry, s: seq<DayEntry>): (r: seq<DayEntry>)
    requires SortedByStart(s)
    ensures SortedByStart(r)
    ensures multiset(r) == multiset(s) + multiset{e}
    decreases |s|
  {
    if |s| == 0 then [e]
    else if LessEq(e.booking.timeStart, s[0].booking.timeStart) then
      InsertInFront(e, s);
      [e] + s
    else
      var rest := InsertByStart(e, s[1..]);
      InsertBehind(e, s, rest);
      assert s == [s[0]] + s[1..];
      [s[0]] + rest
  }

  /** `.sort((a, b) => a.timeStart.localeCompare(b.timeStart))`: a stable sort by start time. */
  function SortByStart(s: seq<DayEntry>): (r: seq<DayEntry>)
    ensures SortedByStart(r)
    ensures multiset(r) == multiset(s)
    decreases |s|
  {
    if |s| == 0 then []
    else
      assert s == [s[0]] + s[1..];
      InsertByStart(s[0], SortByStart(s[1..]))
  }

  /** The entries of the day modal for `date`: a permutation of the cached bookings of that
      date, each with the room of its `roomId`, ordered by start time. */
  function DayBookings(cache: seq<Booking>, date: string): (r: seq<DayEntry>)
    ensures SortedByStart(r)
    ensures multiset(r) == multiset(Join(OnDate(cache, date)))
    ensures |r| == BookingCount(cache, date)
    ensures forall e ::
      e in r <==> (e.booking in cache && e.booking.date == date && e.room == FindRoom(e.booking.roomId))
  {
    var selected := OnDate(cache, date);
    var r := SortByStart(Join(selected));
    JoinMembers(selected);
    assert |r| == |multiset(r)| == |multiset(Join(selected))| == |Join(selected)|;
    assert forall e :: e in r <==> e in multiset(Join(selected));
    r
  }

  /** `showDayBookings(dateStr)`: the placeholder exactly when no cached booking has the
      date; otherwise the sorted entries, unless one of them lacks a room. */
  function ShowDay(cache: seq<Booking>, date: string): (v: DayModal)
    ensures v == NoBookings <==> BookingCount(cache, date) == 0
    ensures v.Listing? ==> v.entries == DayBookings(cache, date)
    ensures v.Listing? ==> forall e :: e in v.entries ==> e.room.Some?
    ensures v == RenderError <==> exists b :: b in cache && b.date == date && FindRoom(b.roomId).None?
  {
    var entries := DayBookings(cache, date);
    MissingRoomListed(cache, date);
    if |entries| == 0 then NoBookings
    else if exists e :: e in entries && e.room.None? then RenderError
    else Listing(entries)
  }

  /** A day entry lacks its room exactly when a cached booking of that date names an
      unknown room. */
  lemma MissingRoomListed(cache: seq<Booking>, date: string)
    ensures (exists e :: e in DayBookings(cache, date) && e.room.None?)
        <==> exists b :: b in cache && b.date == date && FindRoom(b.roomId).None?
  {
    var entries := DayBookings(cache, date);
    if exists b :: b in cache && b.date == date && FindRoom(b.roomId).None? {
      var b :| b in cache && b.date == date && FindRoom(b.roomId).None?;
      assert DayEntry(b, FindRoom(b.roomId)) in entries;
    }
  }

  /** The calendar and the day modal agree: a day cell's count is the number of entries
      its modal lists, and the cell is marked exactly when the modal is not the placeholder. */
  lemma CellMatchesDayModal(cells: seq<Cell>, year: int, month: int, cache: seq<Booking>, today: Date, i: int)
    requires 0 <= month < 12 && IsGrid(cells, year, month, cache, today)
    requires StartDay(year, month) <= i < |cells|
    ensures cells[i].Day?
    ensures cells[i].count == |DayBookings(cache, cells[i].key)|
    ensures cells[i].count > 0 <==> ShowDay(cache, cells[i].key) != NoBookings
  {
    assert cells[i] == DayCell(year, month, i - StartDay(year, month) + 1, cache, today);
  }
}
