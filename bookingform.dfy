/** The booking form: validation of the four inputs, the create/update request it sends,
    and the messages shown for the server's answer. */
module BookingForm {
  import opened Wrappers
  import opened Text
  import opened Cache

  const ApiUrl: string := "https://imdecontrole-booking-backend-98a1.twc1.net/api"

  /** The values of the date, start, end and surname inputs. */
  datatype Fields = Fields(date: string, start: string, end: string, surname: string)

  const FillAllFields: string := "Заполните все поля"
  const EndAfterStart: string := "Время окончания должно быть позже начала"

  /** Why the form was refused; `RejectionText` gives the alert shown. */
  datatype Rejection = MissingField | EndNotAfterStart

  datatype Check = Passed | Rejected(reason: Rejection)

  function RejectionText(r: Rejection): string
  {
    match r
    case MissingField => FillAllFields
    case EndNotAfterStart => EndAfterStart
  }

  /** A field read by `!value`: empty strings are falsy. */
  predicate Filled(f: Fields)
  {
    f.date != "" && f.start != "" && f.end != "" && Trim(f.surname) != ""
  }

  /** The checks of the confirm handler, in order: every field filled (the surname after
      trimming), then the end strictly after the start in string order. There is no
      minimum surname length. */
  function Validate(f: Fields): (c: Check)
    ensures c.Passed? <==> Filled(f) && Less(f.start, f.end)
    ensures c == Rejected(MissingField) <==> !Filled(f)
    ensures c == Rejected(EndNotAfterStart) <==> Filled(f) && !Less(f.start, f.end)
  {
    if f.date == "" || f.start == "" || f.end == "" || Trim(f.surname) == "" then
      Rejected(MissingField)
    else if LessEq(f.end, f.start) then
      Rejected(EndNotAfterStart)
    else
      Passed
  }

  /** An end before the start is refused. */
  lemma InvertedTimesRejected()
    ensures Validate(Fields("2025-01-01", "11:00", "10:00", "Smith")) == Rejected(EndNotAfterStart)
  {
    TrimUnpadded("Smith");
    assert LessEq("10:00", "11:00");
  }

  /** An empty interval is refused too: the end must be strictly after the start. */
  lemma EqualTimesRejected()
    ensures Validate(Fields("2025-01-01", "10:00", "10:00", "Smith")) == Rejected(EndNotAfterStart)
  {
    TrimUnpadded("Smith");
    LessEqReflexive("10:00");
  }

  /** There is no minimum length: a one-letter surname is accepted. */
  lemma OneLetterSurnameAccepted()
    ensures Validate(Fields("2025-01-01", "10:00", "11:00", "S")) == Passed
  {
    TrimUnpadded("S");
    assert !LessEq("11:00", "10:00");
  }

  /** A surname of spaces only is an empty field. */
  lemma BlankSurnameRejected(f: Fields)
    requires forall k :: 0 <= k < |f.surname| ==> IsJsSpace(f.surname[k])
    ensures Validate(f) == Rejected(MissingField)
  {
    TrimEmpty(f.surname);
  }

  // ---------------------------------------------------------------------------
  // The request
  // ---------------------------------------------------------------------------

  /** The HTTP method. */
  datatype Verb = Post | Put | Delete

  datatype Body = Body(roomId: int, date: string, timeStart: string, timeEnd: string, managerSurname: string)

  datatype Request = Request(verb: Verb, url: string, body: Option<Body>)

  /** The edit target as the handler tests it, by truthiness: an id of 0 counts as none. */
  predicate Truthy(target: Option<int>)
  {
    target.Some? && target.value != 0
  }

  const CollectionUrl: string := ApiUrl + "/bookings"

  function BookingUrl(id: int): string
  {
    ApiUrl + "/bookings/" + IntToString(id)
  }

  /** Different bookings have different addresses, and none is the collection's. */
  lemma BookingUrlsDistinct(a: int, b: int)
    ensures BookingUrl(a) == BookingUrl(b) <==> a == b
    ensures BookingUrl(a) != CollectionUrl
  {
    var prefix := ApiUrl + "/bookings/";
    if BookingUrl(a) == BookingUrl(b) {
      assert BookingUrl(a)[|prefix|..] == IntToString(a);
      assert BookingUrl(b)[|prefix|..] == IntToString(b);
      IntToStringInjective(a, b);
    }
    assert |BookingUrl(a)| > |CollectionUrl|;
  }

  /** The body and address of the confirm handler's request: an update of the target when
      one is set, otherwise a creation; the surname trimmed and upper-cased. */
  function SubmitRequest(f: Fields, room: Room, target: Option<int>): (r: Request)
    ensures r.body == Some(Body(room.id, f.date, f.start, f.end, ToUpper(Trim(f.surname))))
    ensures r.verb == Put <==> Truthy(target)
    ensures r.verb != Put ==> r.verb == Post && r.url == CollectionUrl
    ensures r.verb == Put ==> r.url == BookingUrl(target.value)
  {
    var body := Body(room.id, f.date, f.start, f.end, ToUpper(Trim(f.surname)));
    var url := if Truthy(target) then BookingUrl(target.value) else CollectionUrl;
    var verb := if Truthy(target) then Put else Post;
    Request(verb, url, Some(body))
  }

  lemma UpperKeepsSpaces(c: char)
    ensures IsJsSpace(UpperChar(c)) <==> IsJsSpace(c)
  {
  }

  /** What reaches the server for a validated form: an interval with the start strictly
      first, and a surname that is non-empty, upper-case and without surrounding spaces. */
  lemma ValidatedRequest(f: Fields, room: Room, target: Option<int>)
    requires Validate(f).Passed?
    ensures var b := SubmitRequest(f, room, target).body.value;
      LessEq(b.timeStart, b.timeEnd) && b.timeStart != b.timeEnd
      && b.managerSurname != ""
      && !IsJsSpace(b.managerSurname[0]) && !IsJsSpace(b.managerSurname[|b.managerSurname| - 1])
      && forall i :: 0 <= i < |b.managerSurname| ==> !IsLowerLetter(b.managerSurname[i])
  {
    var b := SubmitRequest(f, room, target).body.value;
    var t := Trim(f.surname);
    assert b.timeStart == f.start && b.timeEnd == f.end && b.managerSurname == ToUpper(t);
    assert LessEq(f.start, f.end) && f.start != f.end by {
      LessIsStrict(f.start, f.end);
    }
    assert !IsJsSpace(ToUpper(t)[0]) && !IsJsSpace(ToUpper(t)[|t| - 1]) by {
      UpperKeepsSpaces(t[0]);
      UpperKeepsSpaces(t[|t| - 1]);
    }
    ToUpperIdempotent(t);
  }

  /** Trimming a string that has no surrounding spaces leaves it as it is. */
  lemma TrimUnpadded(s: string)
    requires s != [] ==> !IsJsSpace(s[0]) && !IsJsSpace(s[|s| - 1])
    ensures Trim(s) == s
  {
    assert LeadingSpaces(s) == 0;
    assert s[0..] == s;
    assert TrailingSpaces(s) == 0;
    assert s[0..|s|] == s;
  }

  /** The surname a submit produces is a fixed point: submitting it again sends it unchanged. */
  lemma SurnameNormalised(s: string)
    ensures ToUpper(Trim(ToUpper(Trim(s)))) == ToUpper(Trim(s))
  {
    var t := Trim(s);
    var u := ToUpper(t);
    if u != [] {
      UpperKeepsSpaces(t[0]);
      UpperKeepsSpaces(t[|t| - 1]);
    }
    TrimUnpadded(u);
    ToUpperIdempotent(t);
  }

  // ---------------------------------------------------------------------------
  // Messages for the server's answer
  // ---------------------------------------------------------------------------

  const SlotTaken: string := "На это время переговорка уже занята. Выберите другое время."
  const PastDate: string := "Нельзя забронировать переговорку в прошлом. Выберите другую дату."
  const FailurePrefix: string := "Ошибка при бронировании: "
  const NoConnection: string := "Нет связи с сервером"

  /** `a || b` on strings: the first unless it is empty. */
  function OrElse(a: string, b: string): string
  {
    if a == "" then b else a
  }

  /** The three kinds of alert a failed submit can raise. */
  datatype SubmitAlert = SlotTakenAlert | PastDateAlert | FailureAlert(reason: string)

  /** The catch branch of the confirm handler: the slot-taken phrase wins over the
      past-date phrase, and anything else is a generic failure whose reason is the error
      text, or "no connection" when the text is empty. */
  function ClassifyBookingError(text: string): (a: SubmitAlert)
    ensures a == SlotTakenAlert <==> exists i :: OccursAt(text, "уже занята", i)
    ensures a == PastDateAlert <==>
              (forall i :: !OccursAt(text, "уже занята", i)) && exists i :: OccursAt(text, "прошлом", i)
    ensures a.FailureAlert? ==> a.reason != "" && (text != "" ==> a.reason == text)
    ensures a.FailureAlert? ==> a.reason == OrElse(text, NoConnection)
  {
    ContainsAt(text, "уже занята");
    ContainsAt(text, "прошлом");
    if Contains(text, "уже занята") then SlotTakenAlert
    else if Contains(text, "прошлом") then PastDateAlert
    else FailureAlert(OrElse(text, NoConnection))
  }

  /** The text of each alert. */
  function AlertText(a: SubmitAlert): string
  {
    match a
    case SlotTakenAlert => SlotTaken
    case PastDateAlert => PastDate
    case FailureAlert(reason) => FailurePrefix + reason
  }

  /** The alert a refused submit shows, from the server's error text: the slot-taken
      and past-date explanations, otherwise the failure prefix followed by the text, or by
      "no connection" when the text is empty. */
  lemma BookingErrorAlert(text: string)
    ensures (exists i :: OccursAt(text, "уже занята", i)) ==>
              AlertText(ClassifyBookingError(text)) == SlotTaken
    ensures (forall i :: !OccursAt(text, "уже занята", i)) && (exists i :: OccursAt(text, "прошлом", i)) ==>
              AlertText(ClassifyBookingError(text)) == PastDate
    ensures (forall i :: !OccursAt(text, "уже занята", i) && !OccursAt(text, "прошлом", i)) ==>
              AlertText(ClassifyBookingError(text)) == FailurePrefix + OrElse(text, NoConnection)
  {
    var a := ClassifyBookingError(text);
    if a.FailureAlert? {
      assert AlertText(a) == FailurePrefix + a.reason;
    }
  }

  /** The popup after a successful submit. */
  function SuccessMessage(target: Option<int>, surname: string): (r: string)
    ensures Truthy(target) <==> r == "Бронь обновлена"
    ensures !Truthy(target) ==> r == "Забронировано на " + ToUpper(Trim(surname))
  {
    if Truthy(target) then "Бронь обновлена" else "Забронировано на " + ToUpper(Trim(surname))
  }

  /** The success popup matches the request that was sent: "updated" exactly when the
      request was a PUT, otherwise the confirmation names exactly the surname in the body. */
  lemma SuccessMatchesRequest(f: Fields, room: Room, target: Option<int>)
    ensures var r := SubmitRequest(f, room, target);
      (r.verb == Put <==> SuccessMessage(target, f.surname) == "Бронь обновлена")
      && (r.verb == Post ==>
            SuccessMessage(target, f.surname) == "Забронировано на " + r.body.value.managerSurname)
  {
    var r := SubmitRequest(f, room, target);
    assert r.verb == Put <==> Truthy(target);
  }

  /** Creating "ivanov"'s booking of room 1 for 2030-01-01, 10:00-11:00 posts the surname
      as "IVANOV" to the collection. */
  lemma CreateExample()
    ensures SubmitRequest(Fields("2030-01-01", "10:00", "11:00", "ivanov"), Rooms[0], None)
            == Request(Post, CollectionUrl, Some(Body(1, "2030-01-01", "10:00", "11:00", "IVANOV")))
  {
    TrimUnpadded("ivanov");
    assert ToUpper("ivanov") == "IVANOV";
  }

  /** Editing booking 7 puts to its own address. */
  lemma UpdateExample()
    ensures SubmitRequest(Fields("2030-01-01", "10:00", "11:00", "ivanov"), Rooms[0], Some(7)).verb == Put
    ensures SubmitRequest(Fields("2030-01-01", "10:00", "11:00", "ivanov"), Rooms[0], Some(7)).url
            == ApiUrl + "/bookings/7"
  {
    assert IntToString(7) == "7";
  }
}
