# Appointment scheduling core, modelled in Dafny

This project models the appointment scheduling core of a health-compliance
backend. Patients book time with providers, then cancel or reschedule it.
Providers approve or reject requests and publish weekly availability windows.

The model covers the appointment controller, the Appointment and Availability
schemas, and the appointment router's guard table. The database is an
in-memory `Store`:

- two finite maps, one for appointments and one for availability slots;
- a counter that hands out fresh ids.

Every handler that writes is a pure function. It returns the new store, or
an error and no store, so a failed request changes nothing. Listings are
methods. Each one selects records from a map and inserts them into a sorted
sequence.

Layout:

- `results.dfy` (`Results`): `Option`, `Result` and the error taxonomy.
- `text.dfy` (`Text`): JavaScript `trim`, the binary string order MongoDB
  sorts by, and "HH:MM" clock strings.
- `ordering.dfy` (`Ordering`): sorted insertion and the sorted selection
  behind every listing.
- `records.dfy` (`Records`): the Appointment and Availability schemas
  (enum, defaults, required and trimmed fields) and the user fields the
  core reads.
- `controller.dfy` (`Controller`): the store and the ten handlers.
- `properties.dfy` (`Properties`): the no-double-booking invariant, and
  lemmas that relate several calls.
- `routes.dfy` (`Routes`): the route table, the authentication and role
  guards, and a dispatcher.

`Valid(s)` says that every stored id lies below the id counter, so the next
id is fresh. It holds because MongoDB never reuses an object id. The
handlers do not require it. Contracts that depend on freshness are stated as
`Valid(s) ==> …`.

The model follows the code on these points:

- A booking conflicts only with an active (pending or approved) appointment
  of the same provider at exactly the same instant
  (`appointment.controller.js`, lines 21-25). Two appointments whose
  durations overlap do not conflict.
- Booking never reads the provider's availability windows. The controller
  queries only users and appointments (lines 12-40).
- Rescheduling checks ownership and the new instant only, never the status
  (lines 112-141). It works on cancelled and completed appointments too,
  resets the status to pending, and leaves an earlier rejection reason in
  place.
- A status update writes whichever of the five enum values it is given
  (lines 177-195). Nothing restricts which status may follow which.
- Cancelling refuses only cancelled and completed appointments (lines
  86-91), so a rejected one can be cancelled. The refusal is `CannotCancel`.
- The availability schema's comment promises no overlapping windows
  (`Availability.model.js`, line 31). The index below it is not unique and
  compares nothing, so overlapping, inverted and duplicate windows are all
  stored.

## Model

| member | source | states |
|---|---|---|
| `Records.ParseStatus` | backend/src/models/Appointment.model.js:22-26 | A status string is accepted only when it names a status. That status's name is then exactly the string. |
| `Records.ParseStatusRoundTrip` | backend/src/models/Appointment.model.js:22-26 | Each of the five enum names parses back to its own status. A string is refused exactly when it is none of the five names. |
| `Records.NewAppointment` | backend/src/models/Appointment.model.js:3-39 | A new appointment is stored exactly when patient, provider, instant and a reason that is not all whitespace are present. Otherwise it is a validation error. Status defaults to pending and duration to 30. The stored reason, notes and rejection reason are the trimmed inputs, and the stored reason is never empty. |
| `Records.NewSlot` | backend/src/models/Availability.model.js:3-26 | A new slot is stored exactly when provider, a day in 0..6 and non-empty start and end strings are present. It is active unless told otherwise. Start and end are not compared. |
| `Text.Trim` | backend/src/models/Appointment.model.js:27-39 | The trimmed value has no whitespace at either end. |
| `Text.TrimIsSlice` | backend/src/models/Appointment.model.js:27-39 | Trimming keeps one contiguous slice of the input. Everything cut away before and after it is whitespace. |
| `Text.TrimIdempotent` | backend/src/models/Appointment.model.js:27-39 | Trimming a trimmed value changes nothing. |
| `Text.TrimEmptyIffAllSpace` | backend/src/models/Appointment.model.js:27-31 | A value trims to the empty string exactly when it is all whitespace. This is why a required trimmed reason of "   " is refused. |
| `Text.LexLeCharacterized` | backend/src/controllers/appointment.controller.js:233-234 | The string order used to sort start times puts `a` before `b` exactly when `a` is a prefix of `b`, or `a` has the smaller character at the first position where they differ. |
| `Text.LexLeTotal` | backend/src/controllers/appointment.controller.js:233-234 | Any two start times are comparable. |
| `Text.LexLeTransitive` | backend/src/controllers/appointment.controller.js:233-234 | The start-time order is transitive. |
| `Text.ClockOrderIsTimeOrder` | backend/src/models/Availability.model.js:15-22 | On zero-padded "HH:MM" strings, string order is time-of-day order. |
| `Text.UnpaddedClockMisorders` | backend/src/models/Availability.model.js:15-18 | Without zero padding, string order and time order disagree: "10:00" sorts before "9:30". |
| `Ordering.Insert` | backend/src/controllers/appointment.controller.js:58 | Inserting into a sorted sequence keeps it sorted. The result holds the old elements plus the new one. |
| `Ordering.SortedSelection` | backend/src/controllers/appointment.controller.js:56-58 | Selecting from a map returns every record the filter accepts, each exactly once with its id, and nothing else, in sort order. |
| `Controller.BookAppointment` | backend/src/controllers/appointment.controller.js:6-50 | NotFound exactly when the provider id is not a provider account. Conflict exactly when an active appointment of that provider holds exactly that instant. Otherwise, a validation error exactly when the reason is missing or blank. No other error occurs, so a booking with a provider account, a free instant and a non-blank reason succeeds. On success, exactly one record is added under the fresh id: the caller as patient, pending, duration 30 when none or 0 was given, reason trimmed. No other record changes. |
| `Controller.SlotTaken` | backend/src/controllers/appointment.controller.js:21-25 | The conflict query: some appointment other than the excluded one, of the given provider, at exactly the given instant, is pending or approved. Booking excludes nothing; reschedule excludes the appointment being moved (lines 125-130). Related to booking's answer by `Properties.ConflictIsSlotTaken`. |
| `Controller.BookedDuration` | backend/src/controllers/appointment.controller.js:39 | `duration \|\| 30`: an absent or zero duration becomes the default of 30, a given non-zero duration is kept, and the result is never 0. |
| `Controller.CancelAppointment` | backend/src/controllers/appointment.controller.js:69-104 | NotFound unless the appointment exists and the caller is its patient. CannotCancel exactly when it is cancelled or completed. Otherwise only its status changes, to cancelled. |
| `Controller.RescheduleAppointment` | backend/src/controllers/appointment.controller.js:106-151 | Same ownership check as cancel. Conflict exactly when another active appointment of the same provider holds the new instant; the appointment itself is excluded. Otherwise only the instant changes and the status becomes pending, whatever it was. |
| `Controller.UpdateAppointmentStatus` | backend/src/controllers/appointment.controller.js:171-205 | NotFound unless the caller is the appointment's provider. A validation error when the status is not an enum name. Otherwise the status is written verbatim. Notes are replaced (trimmed) only when non-empty notes are given. The rejection reason is set (trimmed) only when rejecting with a non-empty reason. Nothing else changes. |
| `Controller.SetAvailability` | backend/src/controllers/appointment.controller.js:207-227 | Succeeds exactly when the day is in 0..6 and both times are non-empty. The new active slot belongs to the caller, under a fresh id. No other record changes. |
| `Controller.DeleteAvailability` | backend/src/controllers/appointment.controller.js:245-269 | NotFound, with nothing deleted, unless the slot exists and belongs to the caller. Otherwise exactly that slot is removed, active or not. |
| `Controller.GetPatientAppointments` | backend/src/controllers/appointment.controller.js:52-67 | Exactly the appointments whose patient is the caller, each once, latest instant first. |
| `Controller.GetProviderAppointments` | backend/src/controllers/appointment.controller.js:154-169 | Exactly the appointments whose provider is the caller, each once, latest instant first. |
| `Controller.GetAvailability` | backend/src/controllers/appointment.controller.js:229-243 | Exactly the caller's active slots, each once, ordered by day of week and then start time in string order. |
| `Controller.GetAllProviders` | backend/src/controllers/appointment.controller.js:271-283 | Exactly the provider accounts, with username, email and role only. Password and refresh token are left out. |
| `Controller.LatestFirstIsOrder` | backend/src/controllers/appointment.controller.js:58 | The descending `appointmentDate` sort key, also used at line 160, is a total, transitive order. Both appointment listings depend on it. |
| `Controller.IsProvider` | backend/src/controllers/appointment.controller.js:12-18 | The provider lookup: the id names a user account whose role is provider. |
| `Records.Active` | backend/src/controllers/appointment.controller.js:24 | The `$in: ['pending', 'approved']` filter: only pending and approved appointments hold their instant. |
| `Controller.DayThenStartIsOrder` | backend/src/controllers/appointment.controller.js:233-234 | The (day, start time) sort key is a total, transitive order. |
| `Properties.BookingKeepsNoDoubleBooking` | backend/src/controllers/appointment.controller.js:20-40 | A successful booking keeps "no two active appointments of one provider at one instant". |
| `Properties.RescheduleKeepsNoDoubleBooking` | backend/src/controllers/appointment.controller.js:124-141 | A successful reschedule keeps the same invariant. |
| `Properties.CancelKeepsNoDoubleBooking` | backend/src/controllers/appointment.controller.js:86-94 | A successful cancel keeps the same invariant. |
| `Properties.StatusUpdateDoubleBooksIffReactivatingTakenTime` | backend/src/controllers/appointment.controller.js:189-195 | A status update breaks the invariant exactly when it reactivates an inactive appointment whose instant another active appointment of that provider now holds. |
| `Properties.StatusUpdateCanDoubleBook` | backend/src/controllers/appointment.controller.js:189 | A concrete case: approving a cancelled appointment whose time was re-booked leaves two active appointments at one instant. |
| `Properties.SecondBookingConflicts` | backend/src/controllers/appointment.controller.js:20-32 | After a successful booking, any booking of the same provider at the same instant is refused with Conflict. |
| `Properties.ConflictIsSlotTaken` | backend/src/controllers/appointment.controller.js:12-32 | Booking answers Conflict exactly when the provider exists and the conflict query finds an active appointment at that instant. |
| `Properties.OtherInstantsUnaffected` | backend/src/controllers/appointment.controller.js:21-25 | Adding an appointment leaves every other instant exactly as taken or free as before. |
| `Properties.BookingBlocksOnlyItsInstant` | backend/src/controllers/appointment.controller.js:21-25 | A booking changes the conflict answer at no other instant, even one inside its duration. |
| `Properties.RescheduleInPlaceSucceeds` | backend/src/controllers/appointment.controller.js:125-130 | Self-exclusion: an active appointment can always be rescheduled to its own instant. |
| `Properties.CancelTwiceRefused` | backend/src/controllers/appointment.controller.js:86-91 | Cancelling a just-cancelled appointment is refused with CannotCancel. |
| `Properties.RescheduleRevivesAnyStatus` | backend/src/controllers/appointment.controller.js:124-141 | With the new instant free, reschedule succeeds in any status. The result is pending and keeps its rejection reason. |
| `Properties.ListedProvidersAreBookable` | backend/src/controllers/appointment.controller.js:12-18 | Booking answers NotFound for a provider id exactly when the public directory does not list it. |
| `Properties.AvailabilityTakesInvertedAndDuplicateWindows` | backend/src/models/Availability.model.js:15-32 | For any day in 0..6 and any non-empty start and end where end sorts before start, the inverted window is accepted, and so is the same window again. Both copies are stored, under two different ids. |
| `Routes.RequiredRole` | backend/src/routes/appointment.routes.js:19-34 | The route table itself: no role for listing providers, the patient role for the four patient routes, the provider role for the five provider routes. Its properties are stated by `Routes.RouteTablePartitions`. |
| `Routes.RouteTablePartitions` | backend/src/routes/appointment.routes.js:19-34 | Listing providers is the only public route. Book, list, cancel and reschedule need a patient. Provider listing, status update and the three availability routes need a provider. |
| `Routes.Guard` | backend/src/routes/appointment.routes.js:19-34 | A request reaches its handler exactly when it is public, or the caller has the route's role. Without a caller it is refused with Unauthorized. With the wrong role it is refused with Forbidden. |
| `Routes.OwnAppointmentChange` | backend/src/controllers/appointment.controller.js:74-77 | Changing only an appointment the caller is party to is a change to the caller's records only. |
| `Routes.BookingChangesNothingElse` | backend/src/controllers/appointment.controller.js:34-40 | With fresh ids, a booking touches no existing record. |
| `Routes.BookRoute` | backend/src/routes/appointment.routes.js:24 | The booking route answers exactly with `bookAppointment`'s outcome: the new store and id on success, the unchanged store and the error otherwise. It changes only the caller's records and keeps the store invariants. |
| `Routes.CancelRoute` | backend/src/routes/appointment.routes.js:26 | The cancel route answers exactly with `cancelAppointment`'s outcome. It changes only the caller's records and keeps the store invariants. |
| `Routes.RescheduleRoute` | backend/src/routes/appointment.routes.js:27 | The reschedule route answers exactly with `rescheduleAppointment`'s outcome. It changes only the caller's records and keeps the store invariants. |
| `Routes.HandlePatient` | backend/src/routes/appointment.routes.js:23-27 | Each patient request gets its handler's outcome. The listing is the complete, ordered list of the caller's appointments. Changes touch only the caller's records, and failures and listings leave the store unchanged. |
| `Routes.HandleProvider` | backend/src/routes/appointment.routes.js:29-34 | Each provider request gets its handler's outcome. The listings are the complete, ordered lists of the caller's appointments and active slots. Changes touch only the caller's appointments and slots, and failures and listings leave the store unchanged. |
| `Routes.Handle` | backend/src/routes/appointment.routes.js:19-34 | A guard refusal changes nothing. Listing providers answers with the directory. An admitted patient or provider request gets exactly its handler's outcome. Without a caller nothing changes. Every change is to the caller's own records, and listings show only them. Ids stay fresh and records well-formed. Every route except the status update keeps the no-double-booking invariant. |

## Left out

- The check-then-write race between concurrent bookings or reschedules. The model is sequential, so two simultaneous bookings of one instant, which can both pass the conflict query, are not represented.
- JWT verification, password hashing and the rest of authentication. The caller arrives as an optional `(userId, role)`.
- `role.middleware.js` is not part of this model. `authorize(role)` is taken to admit exactly that role and answer 403 otherwise.
- The error middleware is not part of this model. A schema failure on create or save is `ValidationError`, without an HTTP status.
- HTTP status codes, response messages and the response envelope.
- MongoDB and Mongoose mechanics: `populate`, `createdAt`/`updatedAt` timestamps, indexes, and `CastError` for a malformed id.
- The provider listing's natural order. `Controller.GetAllProviders`: returns a map keyed by id, so the unspecified order of MongoDB's unsorted `find` is not modelled.
- The order among listed records with equal sort keys. MongoDB leaves it unspecified, and so do the contracts.
- Casting request bodies. Strings are not converted to `Date` or `Number`, fractional days such as 2.5 are not modelled, and non-string notes are not modelled.
- `Controller.BookAppointment`: the instant is always present. A body without `appointmentDate` is not modelled, and neither is the filter it would produce in the conflict query.
- `Controller.RescheduleAppointment`: the new instant is always present. An absent one, which the save would refuse, is not modelled.
- `Controller.UpdateAppointmentStatus`: the status is always a string. An absent status, which unsets the field, is not modelled.
- Fractional durations. The schema stores `duration` as a JavaScript number, so 22.5 is kept as 22.5; the model's duration is an integer and cannot express it.
- Falsy durations other than absent and 0 (`NaN`, `""`, `false`, `null`). Only absent and 0 become 30.
- Frontend components and pages, the goal and profile controllers, the summary service, and the other routers. They are outside the scheduling core.
