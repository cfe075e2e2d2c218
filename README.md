# Meeting-room booking client — verified model

A Dafny model of the booking logic of a meeting-room booking mini-app (`script.js`): the
month calendar and its navigation, the day view of a date's bookings, the booking form
(validation, the create/update request, the messages for the server's answer), entry into
edit mode, the booking cache's reload rule and the confirmation that gates a deletion.
The browser, the host platform and the network are removed: every server answer, the
host's clock and the user's popup answer are parameters.

Modules:

- `Text` — JavaScript's string operations as the handlers use them: relational comparison
  (`<`, `>=`), `includes`, `String(n)`, `padStart(2, '0')`, `trim`, `toUpperCase`.
- `Calendar` — proleptic Gregorian arithmetic: month lengths, the weekday of the first of
  a month, the Monday-first start column, month navigation, the `YYYY-MM-DD` day key.
- `Cache` — rooms, bookings, the room lookup and the per-date filter of the cache.
- `Grid` — the month grid `renderCalendar` builds, as a method with two counting loops.
- `DayView` — `showDayBookings`: filter, join to rooms, stable sort by start time.
- `BookingForm` — validation, request construction, error and success messages.
- `MyBookings` — the "my bookings" list, `editBooking`'s lookup, the delete confirmation.
- `BookingApp` — class `App` holding the mutable state (`bookings`, `selectedRoom`,
  `editingId`, the form's inputs, `month`, `year`) with one method per event handler;
  `App.Enter` stands for the user typing into the form's inputs, which the confirm
  handler then reads.

Behaviours of the code a reader might not expect:

- There is no minimum surname length: a one-letter surname passes validation
  (`BookingForm.OneLetterSurnameAccepted`).
- The edit target is tested by truthiness, so a target id of 0 submits as a creation
  (`BookingForm.Truthy`).
- A failed calendar reload only raises an alert; the grid is rendered from the previous
  cache, not replaced by a "failed to load" placeholder.
- The `Date` constructor reads years 0..99 as 1900..1999, so the grid of year 50 is laid
  out as 1950 while its day keys read `50-MM-DD` (`Calendar.CtorYear`). The year in a key
  is not zero-padded.
- A room id with no room makes the form handlers throw after they have assigned the
  selection (`App.SelectRoom`, `App.EditBooking`), makes the day modal fail to render
  (`DayView.RenderError`), and turns the whole "my bookings" list into its failure text.
- The form's default date comes from `toISOString`, i.e. the UTC date, while the calendar's
  "today" is the local date; both are parameters here (`todayIso`, `today`).

## Model

| member | source | states |
|---|---|---|
| Text.LessIsStrict | script.js:151 | `start < end` is exactly "`start <= end` and they differ", so `start >= end` rejects equal and inverted times |
| Text.LessEqTotal | script.js:265 | the string order used to sort start times compares any two strings |
| Text.LessEqTransitive | script.js:265 | the string order is transitive |
| Text.ContainsAt | script.js:191-193 | `includes` holds exactly when the phrase occurs at some position of the text |
| Text.IntToStringInjective | script.js:164 | different ids (and years) render as different decimal strings |
| Text.Trim | script.js:146 | `trim` returns the slice left after removing the JavaScript white space at both ends, and it neither starts nor ends with a space |
| Text.TrimEmpty | script.js:146-148 | a value trims to empty exactly when it consists of spaces only |
| Text.ToUpperIdempotent | script.js:160 | upper-casing is idempotent and leaves none of the letters it maps (`a`-`z`, U+0430-U+045F) in lower case |
| Calendar.StartDay | script.js:214-216 | Sunday (0) goes to column 6, other weekdays to `firstDay - 1`; the column lies in 0..6 and equals the days elapsed since the last Monday |
| Calendar.MonthStep | script.js:215 | "day 0 of next month": the first of the next month comes exactly `DaysInMonth` days after the first of this month, also from December to January |
| Calendar.YearStep | script.js:214-215 | consecutive January firsts are 366 days apart in a Gregorian leap year and 365 otherwise |
| Calendar.StartDayChains | script.js:214-216 | for years the `Date` constructor does not remap (neither year in 0..99, so not across -1/0 or 99/100), the next month's grid starts in column `(startDay + daysInMonth) % 7` of this one |
| Calendar.ReferenceCalendar2024 | script.js:214-216 | start columns of all twelve months of leap year 2024, February has 29 days |
| Calendar.ReferenceCalendar2025 | script.js:214-216 | start columns of all twelve months of common year 2025, February has 28 days |
| Calendar.Next | script.js:255-258 | "next" keeps the month in 0..11 and moves exactly one month forward (11 of year y becomes 0 of y+1) |
| Calendar.Prev | script.js:249-252 | "previous" keeps the month in 0..11 and moves exactly one month back (0 of year y becomes 11 of y-1) |
| Calendar.NavigationRoundTrip | script.js:249-259 | next then previous, and previous then next, restore (month, year); both wrap at the year boundary |
| Calendar.DateKeyInjective | script.js:227 | different days of any months and years get different keys |
| Calendar.DateKeyIsIso | script.js:227 | for four-digit years the key has the `YYYY-MM-DD` shape of a booking's `date` |
| Cache.FindRoom | script.js:119 | the lookup finds a room exactly when one has the id, and returns that room |
| Cache.RoomIdOfCard | script.js:113-117 | only the cards `psk`, `spb`, `msk` name a room, and each names an existing one |
| Cache.OnDate | script.js:238 | the filter keeps each cached booking of that date as often as it is cached and nothing else |
| Cache.BookingCount | script.js:238-241 | a day's count is positive exactly when some cached booking has that date |
| Grid.DayCell | script.js:227-241 | a day cell carries its day, its key, and a count that marks it exactly when a cached booking has that key |
| Grid.BuildGrid | script.js:214-246 | the grid is `startDay` blank cells followed by the cells of days 1..`daysInMonth` in order |
| Grid.LayOut | script.js:219-246 | the two loops produce the blank cells followed by the cells of days 1..`daysInMonth` |
| Grid.LayoutOfCells | script.js:219-246 | blank cells followed by the day cells put day `d` at position `start + d - 1` |
| Grid.BookingMarksItsDay | script.js:237-241 | a cached booking on a shown day marks that day's cell and no other day's key equals its date |
| DayView.InsertByStart | script.js:265 | inserting into a start-sorted list keeps it sorted and adds exactly the new entry |
| DayView.SortByStart | script.js:265 | the sort returns a permutation of its input ordered by non-decreasing start time |
| DayView.DayBookings | script.js:262-265 | the day's entries are a permutation of the cached bookings of that date, each joined to the room of its `roomId`, sorted by start time |
| DayView.ShowDay | script.js:261-284 | the placeholder appears exactly when no cached booking has the date; a listing shows the sorted entries; an entry without a room fails to render |
| DayView.MissingRoomListed | script.js:264-275 | an entry of the day modal has no room exactly when a cached booking of that date names an unknown room |
| DayView.CellMatchesDayModal | script.js:237-244 | a calendar cell's count equals the number of entries its day modal lists, and it is marked exactly when the modal is not the placeholder |
| BookingForm.Validate | script.js:143-153 | passes exactly when all four fields are filled (surname after trimming) and start < end; "fill all fields" exactly when a field is empty; "end after start" exactly when filled but `start >= end` |
| BookingForm.InvertedTimesRejected | script.js:151-152 | an end before the start is refused with "end after start" |
| BookingForm.EqualTimesRejected | script.js:151-152 | equal start and end are refused too |
| BookingForm.OneLetterSurnameAccepted | script.js:148-153 | a filled form with a one-letter surname passes: there is no minimum length |
| BookingForm.BlankSurnameRejected | script.js:146-149 | a surname of spaces only is an empty field |
| BookingForm.SubmitRequest | script.js:155-167 | PUT to `/bookings/{id}` exactly when the edit target is truthy, otherwise POST to `/bookings`; the body carries the room id, date and times unchanged and the trimmed, upper-cased surname |
| BookingForm.BookingUrlsDistinct | script.js:163-165 | update addresses of different ids differ and none equals the collection address |
| BookingForm.ValidatedRequest | script.js:148-161 | a request sent after validation has start strictly before end and a non-empty, upper-case surname without surrounding spaces |
| BookingForm.SurnameNormalised | script.js:146-160 | a submitted surname is sent unchanged when submitted again |
| BookingForm.ClassifyBookingError | script.js:191-197 | slot-taken exactly when the text contains "уже занята"; past-date exactly when it does not but contains "прошлом"; otherwise a generic failure whose reason is the text, or "Нет связи с сервером" for an empty text |
| BookingForm.BookingErrorAlert | script.js:191-197 | the alert text (`AlertText`) of a refused submit: the slot-taken or past-date explanation, otherwise the failure prefix followed by the error text or by "Нет связи с сервером" |
| BookingForm.SuccessMatchesRequest | script.js:155-177 | the success popup reads "updated" exactly when the request sent was a PUT; after a POST it names exactly the surname the body carried |
| BookingForm.CreateExample | script.js:155-167 | "ivanov" is posted as "IVANOV" to `/bookings` with the room id and the other fields unchanged |
| BookingForm.UpdateExample | script.js:163-167 | an edit of booking 7 is a PUT to `/bookings/7` |
| MyBookings.MyBookingsView | script.js:291-333 | failure text exactly when the call fails or a booking has no room; the empty text exactly for an empty answer; otherwise one card per booking |
| MyBookings.FindBooking | script.js:337 | finds the first booking of the list with that id, and finds one exactly when the list has it |
| MyBookings.EditThenSubmitUpdates | script.js:336-347 | for a non-zero id, a known room and a surname already in submitted form (trimmed and upper-cased), a booking loaded for editing and resubmitted with new times is PUT to its own address with its room, date and surname unchanged |
| MyBookings.DeleteCall | script.js:358-362 | the DELETE of `/bookings/{id}` is issued exactly when the answer is 'destructive' |
| MyBookings.DeleteNeverConfirmedAsWritten | script.js:354-359 | with the buttons as declared, no popup answer issues the DELETE |
| MyBookings.DeleteConfirmedOnlyByDestructiveButton | script.js:354-359 | with ids on the buttons, the DELETE is issued exactly when "Удалить" is pressed |
| BookingApp.App.constructor | script.js:15-17 | the page starts with an empty cache, no room, no edit target, on the host's month |
| BookingApp.App.LoadBookings | script.js:55-63 | a successful answer replaces the cache; a failure keeps the previous contents and raises the load alert |
| BookingApp.App.RenderCalendar | script.js:208-247 | renders the grid of the current month from the cache |
| BookingApp.App.OpenCalendar | script.js:98-101 | opening the calendar reloads the cache and renders the grid |
| BookingApp.App.Start | script.js:376-393 | page load: the reload rule is applied to the cache; the grid is rendered exactly when the calendar screen is active; "my bookings" is loaded only when that screen is active |
| BookingApp.App.PrevMonth | script.js:249-253 | moves to `Prev` of the month and year and renders it |
| BookingApp.App.NextMonth | script.js:255-259 | moves to `Next` of the month and year and renders it |
| BookingApp.App.SelectRoom | script.js:110-133 | selects the card's room and clears the edit target; a known room opens the form with today, 10:00, 11:00 and an empty surname |
| BookingApp.App.Cancel | script.js:137-140 | closes the form and clears the edit target |
| BookingApp.App.EditBooking | script.js:336-350 | for an id in the list, sets the target and the booking's room and fills the form; otherwise changes nothing |
| BookingApp.App.ConfirmBooking | script.js:142-199 | a rejected or roomless form sends nothing and changes nothing; a refused request changes nothing and shows the mapped alert; a saved one sends the built request, closes the form and clears the target |
| BookingApp.App.Send | script.js:155-199 | sends the built request; a refusal changes nothing and shows the mapped alert, a success shows the popup and runs its callback |
| BookingApp.App.AfterSave | script.js:178-186 | after a save: form closed, target cleared, cache reloaded by the reload rule, calendar rendered, "my bookings" reloaded only when that screen is showing |
| BookingApp.App.DeleteBooking | script.js:358-372 | the popup callback, given the popup's answer: only 'destructive' sends the DELETE; a refused one changes nothing and shows `DeleteFailureMessage` (the error text, or "Неизвестная ошибка"); after success the cache and the "my bookings" list are reloaded and the calendar rendered |

## Left out

- The host platform: `ready`/`expand`, the identity data sent with each call, `showAlert` and `showPopup` with their `alert` fallbacks. Alerts are returned as values; the popup is represented only by the answer its callback receives.
- `apiCall`: `fetch`, headers, JSON encoding and decoding, and the extraction of an error text from a failed response. Each server call is a `Result` parameter.
- The DOM: markup, class toggles, titles (month names, the day modal's title), event wiring, screen switching, and the listener that `loadMyBookings` adds again on every call.
- The interleaving of overlapping requests and popup callbacks: each handler runs to completion, its awaited calls answered by its parameters.
- The host clock: `today` (local date) and `todayIso` (UTC date) are parameters.
- `Calendar.StartDay`: for years outside the range of a JavaScript `Date` (beyond about ±275,760) the host yields no cells at all; the model keeps the Gregorian calendar there.
- `Text.LessEq`: `localeCompare` is modelled as comparison by character code, and characters beyond the Basic Multilingual Plane compare by code point rather than by UTF-16 unit.
- `Text.ToUpper`: only `a`-`z` (to `A`-`Z`) and U+0430-U+045F (the basic Russian letters and U+0450-U+045F) are mapped; every other lower-case letter (accented Latin such as `é`, further Cyrillic such as `ґ`, other scripts) is left unchanged, and length-changing mappings such as `ß` → `SS` are not modelled.
- `Text.IntToString`: numbers of 10^21 or more, which JavaScript prints in exponent form, are not distinguished.
- `DayView.SortByStart`: the sort is stable by construction, but its contract does not state the order of entries with equal start times.
- The booking's owner identifier, which the client never reads.

## Findings

| source | as written | input that shows it | evidently intended | confidence | as-written member | corrected member |
|---|---|---|---|---|---|---|
| script.js:354-359 | the popup buttons are declared with a `type` and a `text` but no `id`, while the callback compares its argument, which the host sets to the pressed button's `id` (empty when undeclared), with 'destructive'; without a popup the fallback answers 'ok' | pressing "Удалить": the callback receives "" and returns without deleting | pressing "Удалить" deletes the booking | medium (rests on the host's documented popup behaviour); not executed | MyBookings.DeleteNeverConfirmedAsWritten | MyBookings.DeleteConfirmedOnlyByDestructiveButton |
