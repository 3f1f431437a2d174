# Court reservation rules, modelled in Dafny

A sports club's court-reservation web application lets users book courts on a
resource calendar (courts are columns, half-hour slots are rows) and cancel
their bookings; administrators of a club book and cancel with fewer limits.
This project models the booking and cancellation rules of that application,
with every instant as a whole number of minutes and "now" as a parameter:

- `clock.dfy` (`Clock`): minutes, days, and reading the minute and the day back from an instant.
- `auth.dfy` (`Auth`): the session (user id, role, administered club) and "administrator of this club".
- `slots.dfy` (`Slots`): the slot rules a booking must satisfy and the validator that reports the first broken rule.
- `reserve_dialog.dfy` (`ReserveDialog`): what the booking dialog shows, and each case of its component tests as a lemma for every day.
- `reserve_dialog_end_date.dfy` (`ReserveDialogEndDate`): the end-time field with its two store slots (end, error flag) as a class, and the tests' edit sequences.
- `reservations.dfy` (`Reservations`): the reservation table as a class whose invariant is "no two reservations on one court overlap", the booking command, and the end-to-end booking tests.
- `event_detail_dialog.dfy` (`EventDetailDialog`): who may delete, when it is too late to cancel, what the detail dialog shows, and the calendar store it updates.
- `calendar.dfy` (`Calendar`): courts to resources, reservations to events, the one-week range, and the calendar page's state.
- `item_crud.dfy` (`ItemCrud`): the item form's record updates and the delete-button rule.

The booking validator itself lives in a component and a server router that are
not part of this model; its rules are fixed by the component and end-to-end
tests, and every case those tests assert is a lemma or a method here. The
rules are checked in this order:
1. a missing end gives `InvalidRange`;
2. a user's start before now gives `PastTime`;
3. a minute other than 0 or 30 gives `BadGranularity`;
4. an end not after the start gives `InvalidRange`;
5. a user's booking over 120 minutes gives `DurationExceeded`;
6. a user's end after the last bookable time plus one hour gives `AfterClosing`.

The administrator test books 13:00 today, which may already be past when the
test runs, and still expects the reserve button enabled, so administrators are
exempt from rule 2. Rule 4 is the reservation invariant "start before end";
no test pins it.

## Model

| member | source | states |
|---|---|---|
| `Slots.UserLimitsShowLimitHint` | cypress/components/ReserveDialog.cy.tsx:109-197 | for a user's on-slot, ordered, not-past booking, the limit hint shows iff the booking is over 2 hours or ends after the closing bound |
| `Slots.Validate` | cypress/components/ReserveDialog.cy.tsx:42-244 | accepted iff the end is present, after the start, not in the past for a user, on the hour or half hour at both ends, and for a user at most 2 hours long and ending by the closing bound; a user's past start, then bad granularity, then the order of the ends, then the duration, then the closing bound are reported first when they fail; a conflict is never reported here |
| `Slots.HelperText` | cypress/components/ReserveDialog.cy.tsx:109-218 | the granularity error has its own message; the duration and closing errors share one message |
| `Slots.DefaultEnd` | cypress/components/ReserveDialog.cy.tsx:65-69 | the proposed end is one hour after the start and is on a slot when the start is |
| `Slots.AdminNeedsOnlySlots` | cypress/components/ReserveDialog.cy.tsx:221-245 | an administrator's booking is accepted iff it is on slots and its end is after its start |
| `Slots.AdminExemptionIsMonotone` | cypress/components/ReserveDialog.cy.tsx:221-245 | whatever a user may book, an administrator may book |
| `Slots.GranularityBindsEveryone` | cypress/e2e/adminAndUserBookPage.cy.ts:112-136 | an off-slot start or end is rejected for its granularity for users and administrators alike |
| `Slots.UserDurationCap` | cypress/components/ReserveDialog.cy.tsx:109-137 | a user's future on-slot booking is rejected for its length iff it exceeds 120 minutes |
| `Slots.DefaultEndAccepted` | cypress/components/ReserveDialog.cy.tsx:42-69 | the default end of a future on-slot start is accepted when the closing bound leaves room for it |
| `ReserveDialog.View` | cypress/components/ReserveDialog.cy.tsx:35-137 | login prompt iff no session; otherwise the past warning and the disabled end field iff a user's start is past, the end field is invalid iff the validator rejects, the helper text follows the rejection, and reserve is enabled iff the booking is valid |
| `ReserveDialog.Opened` | cypress/components/ReserveDialog.cy.tsx:65-69 | the dialog opens with the end one hour after the start |
| `ReserveDialog.NoSessionOffersLogin` | cypress/components/ReserveDialog.cy.tsx:36-40 | without a session the dialog offers the login button |
| `ReserveDialog.UserBooksOneHourAndAHalf` | cypress/components/ReserveDialog.cy.tsx:42-81 | for any day, 13:00 opens with end 14:00, and 14:30 is valid with reserve enabled |
| `ReserveDialog.UserPastStartBlocked` | cypress/components/ReserveDialog.cy.tsx:83-107 | a user's past start disables the end field, shows the warning and disables reserve |
| `ReserveDialog.UserOverTwoHours` | cypress/components/ReserveDialog.cy.tsx:109-137 | 13:00 to 15:30 is invalid for a user, with the limit message, reserve disabled |
| `ReserveDialog.UserClosingBound` | cypress/components/ReserveDialog.cy.tsx:139-197 | with last bookable time 20:00 or 20:30, ending one hour later is valid; ending 90 or 120 minutes later is invalid with the limit message |
| `ReserveDialog.UserOffSlotEnd` | cypress/components/ReserveDialog.cy.tsx:199-219 | 13:00 to 14:12 is invalid with the granularity message |
| `ReserveDialog.AdminBooksFiveHours` | cypress/components/ReserveDialog.cy.tsx:221-245 | an administrator of the club books 13:00 to 18:00 today whatever the time now and the closing time |
| `ReserveDialogEndDate.EndDateField.constructor` | cypress/components/ReserveDialogEndDate.cy.tsx:8-40 | the field mounts with the default end and an error flag that agrees with the rules |
| `ReserveDialogEndDate.EndDateField.Clear` | cypress/components/ReserveDialogEndDate.cy.tsx:48-52 | clearing sets the end to none and the error to true, keeping the flag consistent |
| `ReserveDialogEndDate.EndDateField.Type` | cypress/components/ReserveDialogEndDate.cy.tsx:54-71 | typing a time sets the end to it and the error iff the booking breaks a rule |
| `ReserveDialogEndDate.ClearSetsError` | cypress/components/ReserveDialogEndDate.cy.tsx:48-52 | clearing a valid end yields end none and error true |
| `ReserveDialogEndDate.TypeValidAfterClear` | cypress/components/ReserveDialogEndDate.cy.tsx:54-60 | after clearing, typing 14:00 for a 12:00 start clears the error |
| `ReserveDialogEndDate.OffSlotThenOnSlot` | cypress/components/ReserveDialogEndDate.cy.tsx:62-71 | 13:01 raises the error; replacing it with 13:00 clears it |
| `ReserveDialogEndDate.ClearAfterInvalid` | cypress/components/ReserveDialogEndDate.cy.tsx:73-83 | clearing after an invalid entry leaves the error raised |
| `Reservations.FindClash` | cypress/e2e/adminAndUserBookPage.cy.ts:62-109 | finds the first reservation on the court whose interval overlaps the proposed one, and none iff no reservation clashes |
| `Reservations.OverlapFacts` | cypress/e2e/adminAndUserBookPage.cy.ts:79-95 | intervals that only touch do not overlap, and overlap is symmetric |
| `Reservations.RemoveAtKeepsNoClashes` | cypress.config.ts:137-143 | deleting one reservation keeps the table free of clashes and of duplicate ids |
| `Reservations.ReservationTable.constructor` | cypress/e2e/adminAndUserBookPage.cy.ts:14-27 | the table starts empty and valid |
| `Reservations.ReservationTable.Add` | cypress.config.ts:97-128 | a clashing reservation is refused with the clash error and the table unchanged; otherwise it is appended; the no-clash invariant holds after |
| `Reservations.ReservationTable.Insert` | cypress/e2e/adminAndUserBookPage.cy.ts:30-136 | succeeds iff the booking is valid and clashes with nothing on the court; a rule failure returns that rule's error, a clash returns the clash error; a refusal leaves the table unchanged |
| `Reservations.ReservationTable.Remove` | cypress.config.ts:137-143 | removes the reservation with the id (reporting whether there was one) and nothing else; an unknown id changes nothing |
| `Reservations.BookFreeSlot` | cypress/e2e/adminAndUserBookPage.cy.ts:30-59 | booking the free 11:00 slot with the default end succeeds for a user or an administrator, and the table holds one reservation |
| `Reservations.BookOverBookedSlot` | cypress/e2e/adminAndUserBookPage.cy.ts:62-109 | with 12:00-13:00 booked, 11:00-12:30 on the same court is refused with the clash error for users and administrators, and one reservation remains |
| `Reservations.BookOffSlot` | cypress/e2e/adminAndUserBookPage.cy.ts:112-136 | 11:00-12:15 is refused for its granularity for users and administrators, and nothing is added |
| `EventDetailDialog.TooLateToCancel` | src/components/EventDetailDialog.tsx:46-57 | an error iff the start is missing; too late only for a non-administrator whose start is strictly less than the window ahead of now |
| `EventDetailDialog.DialogView` | src/components/EventDetailDialog.tsx:97-190 | nothing without an event; an error iff a user who may delete opens an event without a start; warning iff may delete and too late by the club's cancellation window; delete button iff may delete, disabled iff too late; recurrent dialog iff the event is recurrent, single confirmation (with the store's open flag) otherwise |
| `EventDetailDialog.CanDelete` | src/components/EventDetailDialog.tsx:41-44 | an administrator of the club may delete, and so may a signed-in user whose non-empty id equals the reservation's user id; nobody signed out may (the converse is `DeleterIsAdminOrOwner`) |
| `EventDetailDialog.DeleterIsAdminOrOwner` | src/components/EventDetailDialog.tsx:41-44 | whoever may delete and is not an administrator of the club has a session id equal to the reservation's user id |
| `EventDetailDialog.NoIdNoDelete` | src/components/EventDetailDialog.tsx:41-44 | a non-administrator without a session or with no (or an empty) id can never delete |
| `EventDetailDialog.BoundaryIsNotTooLate` | src/components/EventDetailDialog.tsx:53-56 | a start exactly at now plus the window is not too late |
| `EventDetailDialog.AdminNeverTooLate` | src/components/EventDetailDialog.tsx:53-56 | for an administrator of the club it is never too late |
| `EventDetailDialog.CalendarStore.constructor` | src/components/EventDetailDialog.tsx:24-39 | the store starts with the given event, confirmation closed and no delete requests |
| `EventDetailDialog.CalendarStore.OpenDeleteConfirmation` | src/components/EventDetailDialog.tsx:164-176 | only reachable while the delete button is present and enabled (the user may delete and it is not too late); it opens the confirmation and changes nothing else |
| `EventDetailDialog.CalendarStore.CloseDeleteConfirmation` | src/components/EventDetailDialog.tsx:181-189 | dismissing the confirmation closes it and changes nothing else |
| `EventDetailDialog.CalendarStore.Close` | src/components/EventDetailDialog.tsx:103-106 | closing the dialog deselects the event and changes nothing else |
| `EventDetailDialog.CalendarStore.DeleteReservation` | src/components/EventDetailDialog.tsx:59-67 | exactly one delete request with the id and the club id is added, the event is deselected and the confirmation closed |
| `EventDetailDialog.CalendarStore.ConfirmDelete` | src/components/EventDetailDialog.tsx:182-189 | only reachable while the single confirmation is rendered (non-recurrent event) and open; confirming issues one delete for the reservation the dialog shows |
| `EventDetailDialog.DeleteEnabledIffButtonEnabled` | src/components/EventDetailDialog.tsx:164-176 | the guard of the confirmation's opening holds exactly when the dialog shows the delete button and it is not disabled |
| `EventDetailDialog.StrangerCannotDelete` | src/components/EventDetailDialog.tsx:40-43 | someone who neither administers the club nor owns the reservation never has an enabled delete button, so never reaches a delete |
| `EventDetailDialog.OwnerTooLateCannotDelete` | src/components/EventDetailDialog.tsx:45-56 | a non-administrator's button is never enabled for a start inside the cancellation window |
| `EventDetailDialog.OwnerDeletesSingleReservation` | src/components/EventDetailDialog.tsx:164-189 | the owner of a non-recurrent reservation starting exactly at the window's edge opens the confirmation, confirms, and exactly one delete for it is issued |
| `Calendar.GetCourts` | src/components/Calendar.tsx:51-65 | no resources without court data; otherwise one resource per court, in order, with the court's id and its name as title |
| `Calendar.ToEvent` | src/components/Calendar.tsx:72-81 | the event carries the reservation's id, start, end and court, is not all-day, and is titled with the user's name or "" |
| `Calendar.ToEvents` | src/components/Calendar.tsx:69-83 | one event per reservation, in order |
| `Calendar.EventsKeepStoreInvariant` | src/components/Calendar.tsx:69-83 | a clash-free table with distinct ids yields events with distinct ids that never overlap in one court's column |
| `Calendar.ValidRange` | src/components/Calendar.tsx:163-168 | the range starts at the current date and ends seven days later |
| `Calendar.FindEvent` | src/components/Calendar.tsx:90-97 | finds the first event with the id, and none iff no event has it |
| `Calendar.OneBookingOneEvent` | cypress/e2e/adminAndUserBookPage.cy.ts:53-57 | a single reservation shows as a single event on its court at its times |
| `Calendar.CalendarPage.constructor` | src/components/Calendar.tsx:67-105 | no events, dialog closed, no start, empty court, no requests |
| `Calendar.CalendarPage.LoadEvents` | src/components/Calendar.tsx:69-87 | once the query has data the events are its projection, one per reservation; otherwise they are kept |
| `Calendar.CalendarPage.AddEventOnClick` | src/components/Calendar.tsx:107-119 | a click outside a court fails and changes nothing; otherwise the court and start are set from the click and the dialog opens |
| `Calendar.CalendarPage.HandleDialogClose` | src/components/Calendar.tsx:132-144 | the dialog always closes; an insert request with court, start and end is issued iff a start is set |
| `Calendar.CalendarPage.DeleteEvent` | src/components/Calendar.tsx:90-101 | an unknown id changes nothing; otherwise the event leaves the calendar (and with distinct ids no event with that id remains) and one delete request with the id is issued |
| `ItemCrud.EmptyItem` | src/components/ItemCRUD.tsx:40 | the blank item has an empty name, property off, and the render's date |
| `ItemCrud.Toggled` | src/components/ItemCRUD.tsx:49-51 | the checkbox negates the property and keeps the other fields |
| `ItemCrud.ToggleTwiceRestores` | src/components/ItemCRUD.tsx:49-51 | toggling twice restores the item |
| `ItemCrud.AnyAdminSeesDelete` | src/components/ItemCRUD.tsx:76 | every administrator sees an item's delete button, whatever the club |
| `ItemCrud.DeleteVisible` | src/components/ItemCRUD.tsx:76 | the item's owner sees the delete button; whoever sees it is signed in, and a non-administrator who sees it owns the item |
| `ItemCrud.StrangerSeesNoDelete` | src/components/ItemCRUD.tsx:76 | nobody signed out, and no user other than the owner, sees it |
| `ItemCrud.ItemForm.constructor` | src/components/ItemCRUD.tsx:40-41 | the form starts blank with nothing submitted |
| `ItemCrud.ItemForm.HandleChange` | src/components/ItemCRUD.tsx:43-47 | typing changes the name only |
| `ItemCrud.ItemForm.HandleCheckboxChange` | src/components/ItemCRUD.tsx:49-51 | the checkbox toggles the property only |
| `ItemCrud.ItemForm.HandleSubmit` | src/components/ItemCRUD.tsx:53-58 | the current item is submitted, then the form is reset to the blank item |

## Left out

- The booking validator's own source (the end-date component and the reservation router) is not part of this model. Its rule order, the `InvalidRange` verdict for an end not after the start, and the administrator's exemption from the past-start rule are inferred from the tests; no test pins the order of two rules that fail together.
- The closing bound is taken on the day of the start; a booking across midnight is not distinguished.
- Dates are whole minutes in one time zone: seconds, milliseconds, daylight-saving changes and date-string parsing are not represented. `Calendar.ValidRange` adds seven days as 7 × 1440 minutes.
- User-facing messages are represented by their kind (`SlotHint`, `LimitHint`, error kinds), not by their Italian text.
- `isAdminOfTheClub` (src/utils/utils.ts) is not part of this model. It is modelled as "role ADMIN and session club id equal to the club".
- Request state (loading, error alerts, retry/reset, cache invalidation) and the network are left out. Requests are recorded in the order they are issued (`deletes`, `mutations`, `submitted`), not sent.
- The server's own delete authorization and the recurrent-group cancel dialog are not part of this model. Only the detail dialog's client-side rules are modelled.
- Two users booking the same slot at the same time is a race that the database must resolve. The table is sequential.
- Reservation identifiers are generated by the database. `ReservationTable.Add` and `ReservationTable.Insert` take the fresh id as a parameter and require that it is unused.
- `Reservations.ReservationTable.Add`: the test-only seeding task in cypress.config.ts writes a row without a clash check. The model's `Add` checks clashes as the store's constraint must; the seeded table in the tests is empty, so nothing changes for them.
- `ItemCrud.ItemForm.HandleChange` updates `name` only. The handler writes the key named by the input, and the one text input is named after the item's first key, which is `name`.
- The item list query and the item delete request, the calendar's selection clearing and all logging are UI or network effects and are left out.
- `Reservations.ReservationTable.Remove`: deleting an unknown id throws in the store (cypress.config.ts:138-142); the model returns `false` and leaves the table unchanged instead of raising an error.
- The booking dialog with no start (only reachable signed out) is represented only by its login prompt.
