/** The "my bookings" screen: the list built from the caller's bookings, entry into edit
    mode from that list, and the confirmation that gates a deletion. */
module MyBookings {
  import opened Wrappers
  import opened Text
  import opened Cache
  import opened BookingForm

  /** What the list shows: "Ошибка загрузки", "У вас пока нет бронирований", or one card
      per booking. */
  datatype MyList = LoadFailed | NoBookingsYet | Cards(bookings: seq<Booking>)

  /** `loadMyBookings`: a failed call, and also a booking whose room is unknown (the card
      template throws inside the `try`), show the failure text. */
  function MyBookingsView(response: Result<seq<Booking>, string>): (v: MyList)
    ensures v == LoadFailed <==>
              response.Err? || exists b :: b in response.value && FindRoom(b.roomId).None?
    ensures v == NoBookingsYet <==> response == Ok([])
    ensures v.Cards? ==> response == Ok(v.bookings) && v.bookings != []
                         && forall b :: b in v.bookings ==> FindRoom(b.roomId).Some?
  {
    match response
    case Err(_) => LoadFailed
    case Ok(my) =>
      if |my| == 0 then NoBookingsYet
      else if exists b :: b in my && FindRoom(b.roomId).None? then LoadFailed
      else Cards(my)
  }

  /** `myBookings.find(b => b.id === id)`: the first booking with that id. */
  function FindBooking(list: seq<Booking>, id: int): (r: Option<Booking>)
    ensures r.Some? <==> exists i :: 0 <= i < |list| && list[i].id == id
    ensures r.Some? ==> r.value.id == id
    ensures r.Some? ==> exists i :: (0 <= i < |list| && list[i] == r.value
                                     && forall j :: 0 <= j < i ==> list[j].id != id)
  {
    FindFirst(list, id, (b: Booking) => b.id)
  }

  /** The inputs `editBooking` fills from a booking. */
  function EditFields(b: Booking): (f: Fields)
    ensures f.date == b.date && f.start == b.timeStart && f.end == b.timeEnd
    ensures f.surname == b.managerSurname
  {
    Fields(b.date, b.timeStart, b.timeEnd, b.managerSurname)
  }

  /** Edit flow: a booking loaded into the form and submitted with only its times changed
      is PUT to its own address, with its room, date and surname unchanged, provided its
      id is not 0 and its surname came from an earlier submit. */
  lemma EditThenSubmitUpdates(b: Booking, enteredSurname: string, start: string, end: string)
    requires b.id != 0 && FindRoom(b.roomId).Some?
    requires b.managerSurname == ToUpper(Trim(enteredSurname))
    ensures var f := EditFields(b).(start := start, end := end);
            var r := SubmitRequest(f, FindRoom(b.roomId).value, Some(b.id));
      r.verb == Put && r.url == BookingUrl(b.id)
      && r.body.value == Body(b.roomId, b.date, start, end, b.managerSurname)
  {
    SurnameNormalised(enteredSurname);
  }

  // ---------------------------------------------------------------------------
  // Deletion
  // ---------------------------------------------------------------------------

  const DeleteSucceeded: string := "Бронь успешно удалена"

  function DeleteRequest(id: int): Request
  {
    Request(Delete, BookingUrl(id), None)
  }

  /** The popup callback of `deleteBooking`: the DELETE is issued only for the answer
      'destructive'; any other answer issues nothing. */
  function DeleteCall(id: int, answer: string): (r: Option<Request>)
    ensures r.Some? <==> answer == "destructive"
    ensures r.Some? ==> r.value.verb == Delete && r.value.url == BookingUrl(id) && r.value.body == None
  {
    if answer != "destructive" then None else Some(DeleteRequest(id))
  }

  const DeleteFailurePrefix: string := "Ошибка при удалении: "
  const UnknownError: string := "Неизвестная ошибка"

  /** The alert for a failed deletion; an empty error text reads "Неизвестная ошибка". */
  function DeleteFailureMessage(text: string): string
  {
    DeleteFailurePrefix + OrElse(text, UnknownError)
  }

  /** A button of the host's popup. The host hands the callback the pressed button's
      `id`, which is the empty string for a button declared without one; when the popup
      is not available the handler calls the callback with 'ok'. */
  datatype PopupButton = PopupButton(id: string, kind: string, text: string)

  datatype PopupChoice = Pressed(index: nat) | Unavailable

  function PopupAnswer(buttons: seq<PopupButton>, choice: PopupChoice): string
  {
    match choice
    case Pressed(i) => if i < |buttons| then buttons[i].id else ""
    case Unavailable => "ok"
  }

  /** The buttons `deleteBooking` declares: a type and a text, no id. */
  const DeleteButtonsAsWritten: seq<PopupButton> :=
    [PopupButton("", "destructive", "Удалить"), PopupButton("", "cancel", "Отмена")]

  /** The same buttons with ids, so that the answer the callback tests can arrive. */
  const DeleteButtons: seq<PopupButton> :=
    [PopupButton("destructive", "destructive", "Удалить"), PopupButton("cancel", "cancel", "Отмена")]

  /** As written, no answer the popup can give is 'destructive': deletion is never sent. */
  lemma DeleteNeverConfirmedAsWritten(id: int, choice: PopupChoice)
    ensures DeleteCall(id, PopupAnswer(DeleteButtonsAsWritten, choice)) == None
  {
    assert "ok" != "destructive";
  }

  /** With ids on the buttons, pressing "Удалить" sends the DELETE and nothing else does. */
  lemma DeleteConfirmedOnlyByDestructiveButton(id: int, choice: PopupChoice)
    ensures DeleteCall(id, PopupAnswer(DeleteButtons, choice)).Some? <==> choice == Pressed(0)
  {
    assert "ok" != "destructive";
    assert "cancel" != "destructive";
  }
}
