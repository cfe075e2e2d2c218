/** Rooms, bookings and the in-memory booking cache queries shared by the calendar and
    the day view. */
module Cache {
  import opened Wrappers

  datatype Room = Room(id: int, name: string)

  /** A booking as the server returns it (the fields the client reads). */
  datatype Booking = Booking(
    id: int,
    roomId: int,
    date: string,
    timeStart: string,
    timeEnd: string,
    managerSurname: string,
    userName: string)

  /** The fixed room list. */
  const Rooms: seq<Room> := [
    Room(1, "Производство ПСК"),
    Room(2, "Офис СПБ"),
    Room(3, "Офис МСК")
  ]

  /** `rooms.find(r => r.id === id)`. */
  function FindRoom(id: int): (r: Option<Room>)
    ensures r.Some? <==> exists i :: 0 <= i < |Rooms| && Rooms[i].id == id
    ensures r.Some? ==> r.value in Rooms && r.value.id == id
  {
    FindFirst(Rooms, id, (room: Room) => room.id)
  }

  /** `items.find(x => idOf(x) === id)`: the first item whose id is `id`. */
  function FindFirst<T>(items: seq<T>, id: int, idOf: T -> int): (r: Option<T>)
    ensures r.Some? <==> exists i :: 0 <= i < |items| && idOf(items[i]) == id
    ensures r.Some? ==> idOf(r.value) == id
    ensures r.Some? ==> exists i :: (0 <= i < |items| && items[i] == r.value
                                     && forall j :: 0 <= j < i ==> idOf(items[j]) != id)
  {
    if |items| == 0 then None
    else if idOf(items[0]) == id then Some(items[0])
    else
      var r := FindFirst(items[1..], id, idOf);
      assert forall i :: 0 < i < |items| ==> items[i] == items[1..][i - 1];
      r
  }

  /** The room a card's `data-room` attribute names: 'psk', 'spb' and 'msk' are rooms 1, 2
      and 3; any other value leaves the id undefined. */
  function RoomIdOfCard(card: string): (id: Option<int>)
    ensures id.Some? <==> card in {"psk", "spb", "msk"}
    ensures id.Some? ==> FindRoom(id.value).Some?
  {
    if card == "psk" then Some(1)
    else if card == "spb" then Some(2)
    else if card == "msk" then Some(3)
    else None
  }

  /** `bookings.filter(b => b.date === date)`: the cached bookings of that date, each as
      many times as it is cached. */
  function OnDate(cache: seq<Booking>, date: string): (r: seq<Booking>)
    ensures forall b :: multiset(r)[b] == if b.date == date then multiset(cache)[b] else 0
    ensures forall b :: b in r <==> b in cache && b.date == date
  {
    if |cache| == 0 then []
    else
      var rest := OnDate(cache[1..], date);
      assert cache == [cache[0]] + cache[1..];
      if cache[0].date == date then [cache[0]] + rest else rest
  }

  /** Number of cached bookings on `date`: positive exactly when some booking has it. */
  function BookingCount(cache: seq<Booking>, date: string): (n: nat)
    ensures n > 0 <==> exists i :: 0 <= i < |cache| && cache[i].date == date
    ensures n <= |cache|
  {
    var r := OnDate(cache, date);
    assert |r| > 0 ==> r[0] in r;
    MultisetCardinality(cache, r, date);
    |r|
  }

  lemma MultisetCardinality(cache: seq<Booking>, r: seq<Booking>, date: string)
    requires forall b :: multiset(r)[b] == if b.date == date then multiset(cache)[b] else 0
    ensures multiset(r) <= multiset(cache)
    ensures |r| <= |cache|
  {
    assert multiset(r) <= multiset(cache);
    assert |multiset(r)| <= |multiset(cache)| by {
      MultisetSubsetSize(multiset(r), multiset(cache));
    }
  }

  lemma {:induction false} MultisetSubsetSize<T>(a: multiset<T>, b: multiset<T>)
    requires a <= b
    ensures |a| <= |b|
    decreases |a|
  {
    if |a| > 0 {
      var x :| x in a;
      MultisetSubsetSize(a - multiset{x}, b - multiset{x});
    }
  }
}
