/** The client's mutable state and its event handlers: the booking cache, the selected
    room, the edit target, the form, and the month the calendar shows. Server answers,
    the host clock and the user's popup answer are parameters. */
module BookingApp {
  import opened Wrappers
  import opened Calendar
  import opened Cache
  import opened Grid
  import opened BookingForm
  import opened MyBookings

  const LoadFailedAlert: string := "Не удалось загрузить брони. Проверьте интернет."

  /** What a click on "confirm" leads to. `NoRoom` is the `TypeError` raised when no room
      is selected: nothing is shown and nothing is sent. */
  datatype SubmitOutcome =
    | Invalid(alert: string)
    | NoRoom
    | Refused(request: Request, alert: string)
    | Saved(request: Request, popup: string, reloadAlert: Option<string>, grid: seq<Cell>, myList: Option<MyList>)

  /** What the popup answer of `deleteBooking` leads to. */
  datatype DeleteOutcome =
    | NotConfirmed
    | DeleteRefused(request: Request, alert: string)
    | Deleted(request: Request, alerts: seq<string>, grid: seq<Cell>, myList: MyList)

  class App {
    var bookings: seq<Booking>
    var selectedRoom: Option<Room>
    var editingId: Option<int>
    var fields: Fields
    var formOpen: bool
    var month: int
    var year: int

    ghost predicate Valid()
      reads this
    {
      0 <= month < 12
    }

    /** Page start: an empty cache, no selection, the calendar on the host's month. */
    constructor (today: Date)
      requires 0 <= today.month < 12
      ensures Valid()
      ensures bookings == [] && selectedRoom == None && editingId == None && !formOpen
      ensures month == today.month && year == today.year
    {
      bookings := [];
      selectedRoom := None;
      editingId := None;
      fields := Fields("", "", "", "");
      formOpen := false;
      month := today.month;
      year := today.year;
    }

    /** `loadBookings`: the cache is replaced only by a successful answer; a failure keeps
      the previous contents and raises an alert. */
    method LoadBookings(response: Result<seq<Booking>, string>) returns (alert: Option<string>)
      modifies this`bookings
      ensures response.Ok? ==> bookings == response.value && alert == None
      ensures response.Err? ==> bookings == old(bookings) && alert == Some(LoadFailedAlert)
    {
      match response
      case Ok(xs) =>
        bookings := xs;
        alert := None;
      case Err(_) =>
        alert := Some(LoadFailedAlert);
    }

    /** `renderCalendar` for the shown month. */
    method RenderCalendar(today: Date) returns (cells: seq<Cell>)
      requires Valid()
      ensures IsGrid(cells, year, month, bookings, today)
    {
      cells := BuildGrid(year, month, bookings, today);
    }

    /** Opening the calendar screen: reload, then render. */
    method OpenCalendar(response: Result<seq<Booking>, string>, today: Date)
      returns (alert: Option<string>, cells: seq<Cell>)
      requires Valid()
      modifies this`bookings
      ensures Valid()
      ensures response.Ok? ==> bookings == response.value && alert == None
      ensures response.Err? ==> bookings == old(bookings) && alert == Some(LoadFailedAlert)
      ensures IsGrid(cells, year, month, bookings, today)
    {
      alert := LoadBookings(response);
      cells := RenderCalendar(today);
    }

    /** Page load: the cache is loaded, then the calendar is rendered when its screen is
      the active one, and the "my bookings" list is loaded when that screen is. */
    method Start(
      response: Result<seq<Booking>, string>,
      calendarActive: bool,
      myScreenActive: bool,
      mine: Result<seq<Booking>, string>,
      today: Date)
      returns (alert: Option<string>, grid: Option<seq<Cell>>, myList: Option<MyList>)
      requires Valid()
      modifies this`bookings
      ensures Valid()
      ensures response.Ok? ==> bookings == response.value && alert == None
      ensures response.Err? ==> bookings == old(bookings) && alert == Some(LoadFailedAlert)
      ensures grid.Some? <==> calendarActive
      ensures grid.Some? ==> IsGrid(grid.value, year, month, bookings, today)
      ensures myList == (if myScreenActive then Some(MyBookingsView(mine)) else None)
    {
      alert := LoadBookings(response);
      grid := None;
      if calendarActive {
        var cells := RenderCalendar(today);
        grid := Some(cells);
      }
      myList := if myScreenActive then Some(MyBookingsView(mine)) else None;
    }

    /** The "previous month" button. */
    method PrevMonth(today: Date) returns (cells: seq<Cell>)
      requires Valid()
      modifies this`month, this`year
      ensures Valid()
      ensures (month, year) == Prev(old(month), old(year))
      ensures IsGrid(cells, year, month, bookings, today)
    {
      month := month - 1;
      if month < 0 {
        month := 11;
        year := year - 1;
      }
      cells := RenderCalendar(today);
    }

    /** The "next month" button. */
    method NextMonth(today: Date) returns (cells: seq<Cell>)
      requires Valid()
      modifies this`month, this`year
      ensures Valid()
      ensures (month, year) == Next(old(month), old(year))
      ensures IsGrid(cells, year, month, bookings, today)
    {
      month := month + 1;
      if month > 11 {
        month := 0;
        year := year + 1;
      }
      cells := RenderCalendar(today);
    }

    /** A room card's "book" button: create mode with today's (UTC) date, 10:00-11:00 and
      an empty surname. For an unknown card the room and the edit target are still
      cleared, then the handler throws before the form opens. */
    method SelectRoom(card: string, todayIso: string)
      modifies this`selectedRoom, this`editingId, this`fields, this`formOpen
      ensures selectedRoom == (match RoomIdOfCard(card) case Some(id) => FindRoom(id) case None => None)
      ensures editingId == None
      ensures selectedRoom.Some? ==> formOpen && fields == Fields(todayIso, "10:00", "11:00", "")
      ensures selectedRoom.None? ==> formOpen == old(formOpen) && fields == old(fields)
    {
      var roomId := RoomIdOfCard(card);
      selectedRoom := if roomId.Some? then FindRoom(roomId.value) else None;
      editingId := None;
      if selectedRoom.None? {
        return;
      }
      fields := Fields(todayIso, "10:00", "11:00", "");
      formOpen := true;
    }

    /** The form's "cancel" button. */
    method Cancel()
      modifies this`formOpen, this`editingId
      ensures !formOpen && editingId == None
    {
      formOpen := false;
      editingId := None;
    }

    /** The user typing into the form's inputs. */
    method Enter(f: Fields)
      modifies this`fields
      ensures fields == f
    {
      fields := f;
    }

    /** `editBooking(id, myBookings)`: edit mode for the booking with that id in the given
      list; nothing happens when the list has none. For a booking whose room is unknown
      the room and the target are set, then the handler throws before the form opens. */
    method EditBooking(id: int, mine: seq<Booking>)
      modifies this`selectedRoom, this`editingId, this`fields, this`formOpen
      ensures FindBooking(mine, id).None? ==> unchanged(this)
      ensures FindBooking(mine, id).Some? ==>
        var b := FindBooking(mine, id).value;
        selectedRoom == FindRoom(b.roomId) && editingId == Some(id)
        && (selectedRoom.Some? ==> formOpen && fields == EditFields(b))
        && (selectedRoom.None? ==> formOpen == old(formOpen) && fields == old(fields))
    {
      var found := FindBooking(mine, id);
      if found.None? {
        return;
      }
      var b := found.value;
      selectedRoom := FindRoom(b.roomId);
      editingId := Some(id);
      if selectedRoom.None? {
        return;
      }
      fields := EditFields(b);
      formOpen := true;
    }

    /** The form's "confirm" button. Validation failures and a missing room send nothing
      and change nothing; a refused request keeps the form open with the mapped alert; a
      saved one closes the form, clears the edit target, reloads the cache, renders the
      calendar and, when that screen is showing, the "my bookings" list. */
    method ConfirmBooking(
      response: Result<(), string>,
      reload: Result<seq<Booking>, string>,
      myScreenActive: bool,
      mine: Result<seq<Booking>, string>,
      today: Date)
      returns (outcome: SubmitOutcome)
      requires Valid()
      modifies this`formOpen, this`editingId, this`bookings
      ensures Valid()
      ensures Validate(fields).Rejected? ==>
        outcome == Invalid(RejectionText(Validate(fields).reason)) && unchanged(this)
      ensures Validate(fields).Passed? && selectedRoom.None? ==>
        outcome == NoRoom && unchanged(this)
      ensures Validate(fields).Passed? && selectedRoom.Some? && response.Err? ==>
        outcome == Refused(SubmitRequest(fields, selectedRoom.value, old(editingId)),
                           AlertText(ClassifyBookingError(response.error)))
        && unchanged(this)
      ensures Validate(fields).Passed? && selectedRoom.Some? && response.Ok? ==>
        outcome.Saved?
        && outcome.request == SubmitRequest(fields, selectedRoom.value, old(editingId))
        && outcome.popup == SuccessMessage(old(editingId), fields.surname)
        && !formOpen && editingId == None
        && bookings == (if reload.Ok? then reload.value else old(bookings))
        && outcome.reloadAlert == (if reload.Ok? then None else Some(LoadFailedAlert))
        && IsGrid(outcome.grid, year, month, bookings, today)
        && outcome.myList == (if myScreenActive then Some(MyBookingsView(mine)) else None)
    {
      var check := Validate(fields);
      if check.Rejected? {
        return Invalid(RejectionText(check.reason));
      }
      if selectedRoom.None? {
        return NoRoom;
      }
      outcome := Send(selectedRoom.value, response, reload, myScreenActive, mine, today);
    }

    /** The request of a validated form with a selected room, and what its answer leads to. */
    method Send(
      room: Room,
      response: Result<(), string>,
      reload: Result<seq<Booking>, string>,
      myScreenActive: bool,
      mine: Result<seq<Booking>, string>,
      today: Date)
      returns (outcome: SubmitOutcome)
      requires Valid()
      modifies this`formOpen, this`editingId, this`bookings
      ensures Valid()
      ensures response.Err? ==>
        outcome == Refused(SubmitRequest(fields, room, old(editingId)),
                           AlertText(ClassifyBookingError(response.error)))
        && unchanged(this)
      ensures response.Ok? ==>
        outcome.Saved?
        && outcome.request == SubmitRequest(fields, room, old(editingId))
        && outcome.popup == SuccessMessage(old(editingId), fields.surname)
        && !formOpen && editingId == None
        && bookings == (if reload.Ok? then reload.value else old(bookings))
        && outcome.reloadAlert == (if reload.Ok? then None else Some(LoadFailedAlert))
        && IsGrid(outcome.grid, year, month, bookings, today)
        && outcome.myList == (if myScreenActive then Some(MyBookingsView(mine)) else None)
    {
      var request := SubmitRequest(fields, room, editingId);
      if response.Err? {
        return Refused(request, AlertText(ClassifyBookingError(response.error)));
      }
      var popup := SuccessMessage(editingId, fields.surname);
      var reloadAlert, grid, myList := AfterSave(reload, myScreenActive, mine, today);
      outcome := Saved(request, popup, reloadAlert, grid, myList);
    }

    /** The popup callback after a saved booking. */
    method AfterSave(
      reload: Result<seq<Booking>, string>,
      myScreenActive: bool,
      mine: Result<seq<Booking>, string>,
      today: Date)
      returns (reloadAlert: Option<string>, grid: seq<Cell>, myList: Option<MyList>)
      requires Valid()
      modifies this`formOpen, this`editingId, this`bookings
      ensures Valid()
      ensures !formOpen && editingId == None
      ensures bookings == (if reload.Ok? then reload.value else old(bookings))
      ensures reloadAlert == (if reload.Ok? then None else Some(LoadFailedAlert))
      ensures IsGrid(grid, year, month, bookings, today)
      ensures myList == (if myScreenActive then Some(MyBookingsView(mine)) else None)
    {
      formOpen := false;
      editingId := None;
      reloadAlert := LoadBookings(reload);
      grid := RenderCalendar(today);
      myList := if myScreenActive then Some(MyBookingsView(mine)) else None;
    }

    /** The popup callback of `deleteBooking(id)`, given the answer the popup hands it:
      only 'destructive' sends the DELETE; after a successful one the cache is reloaded,
      the calendar rendered and the "my bookings" list reloaded. */
    method DeleteBooking(
      id: int,
      answer: string,
      response: Result<(), string>,
      reload: Result<seq<Booking>, string>,
      mine: Result<seq<Booking>, string>,
      today: Date)
      returns (outcome: DeleteOutcome)
      requires Valid()
      modifies this`bookings
      ensures Valid()
      ensures answer != "destructive" ==> outcome == NotConfirmed && unchanged(this)
      ensures answer == "destructive" && response.Err? ==>
        outcome == DeleteRefused(DeleteRequest(id), DeleteFailureMessage(response.error))
        && unchanged(this)
      ensures answer == "destructive" && response.Ok? ==>
        outcome.Deleted? && outcome.request == DeleteRequest(id)
        && bookings == (if reload.Ok? then reload.value else old(bookings))
        && outcome.alerts == [DeleteSucceeded] + (if reload.Ok? then [] else [LoadFailedAlert])
        && IsGrid(outcome.grid, year, month, bookings, today)
        && outcome.myList == MyBookingsView(mine)
    {
      var call := DeleteCall(id, answer);
      if call.None? {
        return NotConfirmed;
      }
      if response.Err? {
        return DeleteRefused(call.value, DeleteFailureMessage(response.error));
      }
      var reloadAlert := LoadBookings(reload);
      var alerts := [DeleteSucceeded] + (if reloadAlert.Some? then [reloadAlert.value] else []);
      var grid := RenderCalendar(today);
      outcome := Deleted(call.value, alerts, grid, MyBookingsView(mine));
    }
  }
}
