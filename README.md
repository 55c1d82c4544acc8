# Massage-shop reservations: a Dafny model of the booking pages

This project models the decision logic of a small booking front end. A
signed-in user books a massage shop for a day, lists their reservations,
edits one (a new shop and/or day) or cancels one. All of it lives in two page
components that keep an in-memory list of reservations in their state:

- the **reservation page** (`src/pages/reserve.jsx`): a shop and a date are
  picked. Submitting runs four guards in a fixed order: a date is present;
  fewer than 3 reservations are held; the date is not before today; no
  reservation already books the same shop on the same date. When all pass, a
  `Pending` reservation is appended and the form is cleared. A reservation
  can be cancelled with no confirmation.
- the **tickets page** (`src/pages/tickets.jsx`): an edit mode over five state
  fields (`reservations`, `isEditing`, `editingReservation`, `selectedShop`,
  `selectedDate`). Submitting the edit checks that a shop and a date are
  chosen and that the date is not in the past. It then rewrites every
  reservation carrying the edited id, and always resets its status to
  `Pending`. Cancelling asks for confirmation first.

Files:

- `options.dfy`: `Option`, the model of `null`/`undefined`.
- `iso_date.dfy`: "YYYY-MM-DD" strings and the day-level past-date test.
  `new Date(s) < today` becomes `IsPast(s, today)`. `Parse` reads the string.
  A string that is not a date yields an invalid date, and an invalid date
  compares false, so it is never "in the past".
- `booking.dfy`: shops, reservations, the duplicate test (`some`) and removal
  by id (`filter`). Both pages use these.
- `reserve_page.dfy`: the guard chain as the function `Verdict`, and the
  `Reserve` class whose handlers are proved against it. `Replay` applies a
  sequence of page actions, and `SessionKeepsLimits` proves that no session
  from the empty page holds more than 3 reservations or books one shop twice
  on one day.
- `tickets_page.dfy`: the catalogue lookup (`find`), the per-entry rewrite
  (`map`), the edit guards, and the `Tickets` class whose methods are the
  edit-mode handlers.

`reserve_page.dfy` also holds `FourBookingSession`, a client method with no
contract of its own. It drives a `Reserve` page through one session: a booking,
the same booking again (refused as a duplicate), two more bookings, and a
fourth (refused for capacity). It shows that callers can derive those outcomes
from the handler contracts alone.

Inputs the browser provides become parameters:
- the current day is `today: CalendarDate`;
- the `Date.now()` id is `freshId`;
- the answer to `window.confirm` is `confirmed`.

Three behaviours of the pages are worth noting:

- The reservation page checks for an empty date before the capacity,
  past-date and duplicate guards, so an empty date wins over a full list.
- Cancelling removes every reservation that carries the id.
- An edit can double-book a slot (`EditMayDoubleBook`). So the
  no-double-booking invariant holds on the reservation page only.

## Model

| member | source | states |
|---|---|---|
| IsoDate.Parse | src/pages/reserve.jsx:91 | a string read as a day is a valid calendar day with a ten-character spelling |
| IsoDate.Format | src/pages/reserve.jsx:91 | the "YYYY-MM-DD" spelling is ten characters with dashes at positions 4 and 7 |
| IsoDate.ParseFormat | src/pages/reserve.jsx:91 | reading the spelling of any valid day gives back that day |
| IsoDate.FormatParse | src/pages/reserve.jsx:91 | any string that reads as a day is exactly that day's spelling |
| IsoDate.IsPast | src/pages/reserve.jsx:89-93 | the day-level `new Date(s) < today` test (also src/pages/tickets.jsx:149-153): true exactly when `s` is the spelling of a valid day strictly before today; the guards and lemmas below are stated against it |
| IsoDate.PastIffBefore | src/pages/reserve.jsx:88-96 | the spelling of a day is "in the past" if and only if that day is strictly before today |
| IsoDate.TodayIsNotPast | src/pages/reserve.jsx:88-96 | today's own date is never rejected as past |
| Booking.HasSlot | src/pages/reserve.jsx:99-103 | the duplicate test (`some`): true exactly when some listed reservation books the same shop id on the same date string; the reservation guards and the no-double-booking lemmas are stated against it |
| Booking.RemoveById | src/pages/reserve.jsx:126-127 | the filtered list is no longer, and holds exactly the entries of the old list whose id differs |
| Booking.RemoveByIdAppend | src/pages/reserve.jsx:127 | removal distributes over concatenation, so kept entries keep their order |
| Booking.RemoveAbsentId | src/pages/reserve.jsx:127 | removal leaves the list unchanged if and only if no entry carries the id |
| Booking.RemoveByIdKeepsNoDoubleBooking | src/pages/reserve.jsx:126-127 | removal never creates two bookings of one (shop, date) pair |
| ReservePage.Verdict | src/pages/reserve.jsx:78-108 | the guard chain the submit handler is proved against: created exactly when the date is present, fewer than 3 are held, the date is not past and no entry books the slot; an empty date is reported exactly when the date is empty; a past-date report means the date spells an earlier day; a duplicate report means a listed entry books the slot |
| ReservePage.Draft | src/pages/reserve.jsx:111-116 | the record a successful submission appends, as the handler contract states it: the fresh id, the selected shop and date, status Pending, no shopId or userId |
| ReservePage.SubmitKeepsInvariant | src/pages/reserve.jsx:83-118 | a submission keeps the list at most 3 long and free of double bookings |
| ReservePage.CancelKeepsInvariant | src/pages/reserve.jsx:126-127 | a cancellation keeps the same invariant |
| ReservePage.ResubmitIsRefused | src/pages/reserve.jsx:98-118 | right after a successful booking, the same shop and date are refused as a duplicate or for capacity |
| ReservePage.PastDateIsRefused | src/pages/reserve.jsx:88-96 | with room in the list, a day strictly before today is reported as a past date |
| ReservePage.TodayIsAccepted | src/pages/reserve.jsx:88-118 | with room and a free slot, a booking for today is created |
| ReservePage.ErrorPrecedence | src/pages/reserve.jsx:78-96 | an empty date is reported even on a full list; a full list is reported for any date, past ones included |
| ReservePage.ReplayKeepsInvariant | src/pages/reserve.jsx:75-127 | any sequence of submissions and cancellations keeps the invariant |
| ReservePage.SessionKeepsLimits | src/pages/reserve.jsx:13 | from the initial empty list, no session holds more than 3 reservations or a double booking |
| ReservePage.Reserve.constructor | src/pages/reserve.jsx:11-13 | the page starts with no reservations, no shop and an empty date |
| ReservePage.Reserve.SelectShop | src/pages/reserve.jsx:67-73 | only the selected shop changes |
| ReservePage.Reserve.SelectDate | src/pages/reserve.jsx:218 | only the selected date changes |
| ReservePage.Reserve.HandleReservation | src/pages/reserve.jsx:75-124 | the outcome is the first failing guard in page order; on success exactly one Pending entry with the fresh id, the shop and the date is appended after the unchanged old entries and the form is cleared; on failure nothing changes |
| ReservePage.Reserve.HandleDeleteReservation | src/pages/reserve.jsx:126-129 | the list becomes the old list without the entries carrying the id; the form is untouched |
| TicketsPage.FindShop | src/pages/tickets.jsx:122 | the result is the first catalogue shop with the id, and none exactly when no shop has it |
| TicketsPage.ApplyEdit | src/pages/tickets.jsx:159-170 | same length and order; entries with another id are unchanged; entries with the id get the new shop, shopId and date and status Pending, and keep id and userId |
| TicketsPage.Rewrite | src/pages/tickets.jsx:161-167 | the per-entry spread behind `ApplyEdit`: the entry gets the new shop, shopId and date and status Pending, and restoring those four fields gives back the old entry, so nothing else changes |
| TicketsPage.EditVerdict | src/pages/tickets.jsx:143-156 | the edit guards the submit handler is proved against: updated exactly when a date and a shop are chosen and the date is not past; a missing-selection report exactly when either is missing; a past-date report means the date spells an earlier day |
| TicketsPage.EditOfAbsentId | src/pages/tickets.jsx:159-170 | editing an id that is no longer listed changes nothing |
| TicketsPage.EditKeepsNoDoubleBooking | src/pages/tickets.jsx:159-170 | with unique ids and a target slot no other entry books, an edit keeps the list free of double bookings |
| TicketsPage.EditMayDoubleBook | src/pages/tickets.jsx:140-172 | with no capacity or duplicate guard, moving one reservation onto another's shop and day is accepted and double-books the slot |
| TicketsPage.EditPastIsRefused | src/pages/tickets.jsx:148-156 | a day strictly before today is refused by the edit |
| TicketsPage.EditTodayIsAccepted | src/pages/tickets.jsx:148-156 | today's date, with a shop chosen, is accepted by the edit |
| TicketsPage.Tickets.constructor | src/pages/tickets.jsx:11-19 | the page starts outside edit mode with an empty form over the loaded reservations and catalogue |
| TicketsPage.Tickets.HandleEdit | src/pages/tickets.jsx:119-129 | edit mode holds the chosen reservation, its date, and the first catalogue shop with its shop id (or none) |
| TicketsPage.Tickets.HandleDelete | src/pages/tickets.jsx:131-138 | the entries carrying the id are removed only when confirmed; everything else is unchanged |
| TicketsPage.Tickets.SelectDate | src/pages/tickets.jsx:316 | only the selected date changes |
| TicketsPage.Tickets.SelectShop | src/pages/tickets.jsx:328-331 | the selected shop becomes the catalogue's first shop with the chosen id, or none for the placeholder |
| TicketsPage.Tickets.HandleEditSubmit | src/pages/tickets.jsx:140-180 | a missing shop or date, then a past date, are refused with nothing changed; otherwise the edited id's entries are rewritten and the four edit fields are cleared |
| TicketsPage.Tickets.HandleCancelEdit | src/pages/tickets.jsx:182-187 | the four edit fields are cleared and the reservations are untouched |

## Left out

- Rendering: JSX, inline styles, the progress-bar width (a floating-point percentage), the status colours of `getStatusStyle`, and `handleView`, which only shows a toast. All are presentation.
- `formatDate`: locale formatting through `toLocaleDateString`, a browser library.
- Toasts: each message is the `Outcome`/`EditOutcome` value the handler returns. Also left out: the login redirect, `navigate`, `scrollIntoView`, the `min` attribute of the date inputs, and the `required` attributes (src/pages/reserve.jsx:220, src/pages/tickets.jsx:318, src/pages/tickets.jsx:332). These are browser behaviour. Because of `required`, the browser normally blocks the empty-date and no-shop submissions before the handlers run. The `NoDate` and `MissingSelection` outcomes model the handlers' own checks for those cases.
- The mock fetches with their `setTimeout` delays and `isLoading` flags. `Tickets.constructor` takes the loaded reservations and catalogue as parameters, and the hard-coded sample records are not reproduced.
- Time zones: `new Date("YYYY-MM-DD")` is UTC midnight while `today` is local midnight. The model compares calendar days, so the offset is not modelled. West of UTC, the chosen day's UTC midnight falls before local midnight, so the page rejects today's own date as past. `TodayIsNotPast`, `TodayIsAccepted` and `EditTodayIsAccepted` therefore describe the page only in time zones at or east of UTC.
- Date parsing: only the "YYYY-MM-DD" form with a four-digit year is read. A day past the end of its month is treated as invalid. Other strings, which JavaScript engines parse in engine-specific ways, count as invalid dates, and an invalid date is never "in the past".
- ReservePage.Reserve.HandleReservation: requires a selected shop. The form is only rendered while one is selected (src/pages/reserve.jsx:207); without one, the code would throw on the duplicate test or append a reservation with a null shop.
- TicketsPage.Tickets.HandleEditSubmit: requires edit mode. The edit form is only rendered in edit mode (src/pages/tickets.jsx:298); outside it, the code would throw on `editingReservation.id`.
- Identifiers: JavaScript numbers are modelled as unbounded integers. `Date.now()` ids are a parameter and are not assumed unique, which is why removal and edit act on every entry carrying an id.
- The HTTP wrappers (`src/features/ticketService.js`, `src/features/appointmentsService.js`), the authentication service with its `localStorage` session, and the routing in `src/App.jsx` and `src/pages/Home.jsx` are network I/O or navigation and are not part of this model.
