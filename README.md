# Booking ledger of QuickCourt

QuickCourt is a sports-venue booking backend (Express over MongoDB). This
project models its booking ledger in Dafny:

- how a court slot is reserved;
- how a booking's status changes;
- how a payment confirmation drives a booking to "confirmed";
- the facility reads and updates around those three.

The model has one module per source file:

- `DateUtils` (`backend/utils/dateUtils.js`): parsing `"HH:MM"` times, the half-open overlap test, and clock arithmetic.
- `Helpers` (`backend/utils/helpers.js`): `pick` and `omit`.
- `BookingModel` (`Booking.js`), `PaymentModel` (`Payment.js`) and `FacilityModel` (the parts of `Facility.js` the handlers read): the records, their enumerations and their defaults.
- `Ledger`: the shared store and the lookups the handlers issue against it:
  - `findById`, `findOne` and `find`;
  - Mongo's code-point order on strings;
  - `skip`/`limit`/`countDocuments` paging.
- `BookingController` (`backend/controllers/bookingController.js`): `create`, `myBookings`, `updateStatus`.
- `Payments` (`backend/routes/payments.js`): `create-payment-intent` and `confirm`.
- `FacilityController` (`backend/controllers/facilityController.js`): `list`, `getById`, `create`, `update`, `availability`.
- `Scenario`: one afternoon traced through the handlers, from reservation to rebooking after a cancellation.

Each handler is one sequential step:

- A handler that writes is a function from the store's contents (`Db`) to an `Outcome`: the reply (`Ok` with the JSON payload, or `Fail` with the HTTP status and message) together with the store it leaves. The properties are proved about that function.
- The `Store` class holds the collections as fields. Its `Handle*` methods perform the step in place, and their contracts tie the reply and the new contents to the step function.
- A read handler is a function from the store's contents to its reply.

Modelling choices:

- Money is integer cents and durations are whole hours. So the `Math.round(totalAmount * 100)` that the intent request asks for is the booking's `totalAmount` itself.
- Calendar days are integers.
- Document ids are naturals, handed out by `Store.FreshId`.
- The payment provider is a pair of functions passed in by the caller:
  - `CreateIntent` maps an intent request to the created intent;
  - `RetrieveIntent` maps an intent id to its status and latest charge;
  - `None` from either stands for an SDK call that throws.
- The clock reading that `updateStatus` stamps as `cancelledAt` is a parameter, `now`.

Behaviour of the code that a caller might not expect, which the model keeps as written:

- `create` checks neither that the facility or court is active, nor that `startTime` precedes `endTime`, nor that `duration` agrees with the times.
- `updateStatus` has no transition table. Any of the four statuses can be set from any other, so a cancelled or completed booking can become pending or confirmed again (`BookingController.ReactivationDoubleBooks`).
- `confirm` does not check that the caller made the booking, nor what status the booking has (`Payments.ConfirmRevivesCancelled`).
- Some malformed requests are answered with 500 "Server error", because they surface as a failed save: an unknown status in `updateStatus`, an empty `startTime` or `endTime` in booking `create`, a missing name in facility `create`.
- The conflict query compares `startTime`/`endTime` as strings, not as minutes. The two agree only on zero-padded `"HH:MM"` times (`BookingController.StrLessCanonical`, `BookingController.UnpaddedTimeEscapesConflictQuery`).

## Model

| member | source | states |
|---|---|---|
| DateUtils.ParseTime | backend/utils/dateUtils.js:1-4 | definition of `parseTime`: `60 * h + m` from the first two colon-separated fields, NaN (`None`) when a field is not a number or there is no colon; its meaning is stated by `ParseTimeOfFields`, `ParseCanonical` and `AddMinutesNaN` |
| DateUtils.ParseTimeOfFields | backend/utils/dateUtils.js:1-4 | `parseTime` of two digit fields joined by a colon is `60 * hours + minutes` |
| DateUtils.ParseCanonical | backend/utils/dateUtils.js:1-4 | a zero-padded `"HH:MM"` parses to `60 * HH + MM`, with `MM < 60` |
| DateUtils.CanonicalInjective | backend/utils/dateUtils.js:1-4 | two canonical times with the same minute count are the same string |
| DateUtils.CanonicalFields | backend/utils/dateUtils.js:1-4 | two canonical times with the same hour and minute fields are the same string |
| DateUtils.Overlaps | backend/utils/dateUtils.js:6-12 | definition of `overlaps`: `startA < endB && endA > startB` on parsed minutes, false when any operand is NaN; its properties are `OverlapsSymmetric`, `OverlapsSelf`, `CanonicalOverlaps` and `OverlapExamples` |
| DateUtils.CanonicalOverlaps | backend/utils/dateUtils.js:6-12 | on canonical times `overlaps` holds exactly when startA < endB and endA > startB, in minutes |
| DateUtils.OverlapsSymmetric | backend/utils/dateUtils.js:6-12 | swapping the two intervals does not change `overlaps` |
| DateUtils.OverlapsSelf | backend/utils/dateUtils.js:6-12 | an interval overlaps itself exactly when both ends parse and its start is before its end |
| DateUtils.OverlapExamples | backend/utils/dateUtils.js:6-12 | back-to-back slots 10:00-11:00 and 11:00-12:00 do not overlap; 10:00-11:00 and 10:30-11:30 do; identical slots do |
| DateUtils.AddMinutes | backend/utils/dateUtils.js:14-19 | definition of `addMinutes`: `"NaN:NaN"` for an unparsable time, otherwise the padded hour `floor(total / 60) % 24` and minute `total % 60` with JavaScript's `%`; its properties are `AddMinutesWraps`, `AddMinutesZero`, `AddMinutesBeforeMidnight` and `AddMinutesNaN` |
| DateUtils.JsRemSign | backend/utils/dateUtils.js:14-19 | JavaScript's `%` keeps the sign of the dividend: Euclidean remainder for a non-negative dividend, negated remainder of the magnitude otherwise |
| DateUtils.NatToStringDigits | backend/utils/dateUtils.js:14-19 | `String(n)` is a digit string whose value is `n`, one digit below 10 and two below 100 |
| DateUtils.Pad2Fills | backend/utils/dateUtils.js:14-19 | `padStart(2, '0')` keeps the string as its suffix and fills up to two characters with zeros |
| DateUtils.PaddedTwoDigits | backend/utils/dateUtils.js:14-19 | a number below 100 prints and pads to exactly two digits with that value |
| DateUtils.WrapDay | backend/utils/dateUtils.js:14-19 | `60 * ((total / 60) % 24) + total % 60` is `total % 1440` |
| DateUtils.PrintedClock | backend/utils/dateUtils.js:14-19 | an hour below 100 and a minute below 60 print as a canonical `"HH:MM"` that reads back as the same hour and minute |
| DateUtils.ClockOfFields | backend/utils/dateUtils.js:14-19 | a non-negative total prints as a canonical time with hour `(total / 60) mod 24` and minute `total mod 60` |
| DateUtils.ClockOfWraps | backend/utils/dateUtils.js:14-19 | a non-negative total prints as a canonical time with hour below 24 that parses back to `total mod 1440` |
| DateUtils.ClockCanonical | backend/utils/dateUtils.js:14-19 | printing the hour and minute of a canonical time within the day gives the time back |
| DateUtils.ClockOfCanonical | backend/utils/dateUtils.js:14-19 | printing the minute count of a canonical time within the day gives the time back |
| DateUtils.AddMinutesOf | backend/utils/dateUtils.js:14-19 | unfolds the definition: for a time that parses to `p`, `addMinutes` is the clock printed for `p + mins` |
| DateUtils.AddMinutesWraps | backend/utils/dateUtils.js:14-19 | for a non-negative total, `addMinutes` gives a canonical time with hour below 24 whose minute count is `(parseTime(t) + mins) mod 1440`, with no day carry |
| DateUtils.AddMinutesZero | backend/utils/dateUtils.js:14-19 | adding zero minutes to a canonical time with hour below 24 gives the same string |
| DateUtils.AddMinutesBeforeMidnight | backend/utils/dateUtils.js:14-19 | going back past midnight gives `"-1:-30"` from `"00:30"` minus 60, since `%` truncates toward zero |
| DateUtils.AddMinutesNaN | backend/utils/dateUtils.js:14-19 | a time without a colon gives `"NaN:NaN"` |
| Helpers.Pick | backend/utils/helpers.js:3-6 | the keys of `pick(obj, ks)` are exactly the listed keys `obj` owns, with their values copied |
| Helpers.Omit | backend/utils/helpers.js:8-11 | the keys of `omit(obj, ks)` are exactly the keys of `obj` not listed, with their values copied |
| Helpers.PickOmitPartition | backend/utils/helpers.js:3-11 | every key of `obj` lands in exactly one of `pick` and `omit`, and together they are `obj` |
| Helpers.PickNothing | backend/utils/helpers.js:3-6 | picking no keys gives the empty object |
| Helpers.OmitNothing | backend/utils/helpers.js:8-11 | omitting no keys gives `obj` back, key order included |
| Helpers.OmitNothingFrom | backend/utils/helpers.js:8-11 | with nothing to omit, the `reduce` over distinct owned keys rebuilds exactly those keys in order |
| Helpers.OmitStep | backend/utils/helpers.js:8-11 | with nothing to omit, visiting a new key appends it to the keys of the accumulator |
| BookingModel.ParseStatus | Booking.js:39-43 | the status enum validator accepts a string exactly when it names one of pending, confirmed, cancelled, completed |
| BookingModel.ParseStatusName | Booking.js:39-43 | every status survives the trip through its stored name |
| BookingModel.NewBooking | Booking.js:39-56 | a new booking has status and payment status `pending` and no payment id or cancellation fields |
| BookingModel.BlocksSlot | backend/controllers/bookingController.js:20 | definition of the `status: { $in: ['confirmed', 'pending'] }` filter shared by the conflict query and availability; `BlocksSlotByName` states it on the stored status names |
| BookingModel.BlocksSlotByName | backend/controllers/bookingController.js:20 | a booking holds its slot exactly when its stored status name is in `['confirmed', 'pending']` |
| PaymentModel.NewPayment | Payment.js:18-38 | a new payment has currency `usd`, provider `stripe`, status `created`, and no intent, charge or failure |
| FacilityModel.CourtById | backend/controllers/bookingController.js:9-10 | the court lookup finds a court of the facility with that id, and finds none exactly when no court has it |
| Ledger.FirstIndex | backend/controllers/bookingController.js:16-22 | `findOne` gives the first document in store order that matches, or none when none matches |
| Ledger.Filter | backend/controllers/facilityController.js:75 | `find` returns exactly the stored documents that match, each as often as it is stored, and no other |
| Ledger.FilterAppend | backend/controllers/facilityController.js:75 | `find` keeps store order: the matches of a concatenation are the matches of each part, in order |
| Ledger.Reverse | backend/controllers/bookingController.js:50 | newest first is the insertion order reversed |
| Ledger.StrLess | backend/controllers/bookingController.js:21 | definition of `<` between strings in a query: code point by code point, a proper prefix first; its properties are `StrLessSkip`, `StrLessAt`, `StrLessIrreflexive` and `BookingController.StrLessCanonical` |
| Ledger.StrLessSkip | backend/controllers/bookingController.js:21 | strings with a common prefix compare as their remainders do |
| Ledger.StrLessAt | backend/controllers/bookingController.js:21 | strings that first differ at one position compare as their characters there |
| Ledger.StrLessIrreflexive | backend/controllers/bookingController.js:21 | no string sorts before itself |
| Ledger.Window | backend/controllers/bookingController.js:50 | `skip(s).limit(l)` returns at most `abs(l)` documents from position `s` on, and all of them when the limit is 0 |
| Ledger.TotalPages | backend/controllers/bookingController.js:52 | `Math.ceil(total / limit)` is the least page count that covers `total` for a positive limit, and null when the limit is 0 |
| Ledger.Paginate | backend/controllers/bookingController.js:50-52 | a negative skip fails with a server error; otherwise the page is the window at `(page - 1) * limit` with the total and page count |
| Ledger.PageOfItem | backend/controllers/bookingController.js:50-52 | with a positive limit, the `i`-th listed document is on page `i / limit + 1` at position `i % limit`, within `totalPages` |
| Ledger.Store.constructor | Booking.js:65 | a new store holds no facilities, bookings or payments and hands out id 0 first, and is well formed |
| Ledger.Store.FreshId | backend/controllers/bookingController.js:27 | the store hands out the next unused id |
| BookingController.Conflicts | backend/controllers/bookingController.js:16-22 | definition of the conflict query: same facility, court id and day, a slot-holding status, and `startTime < endTime` / `endTime > startTime` compared as strings; `ConflictsIsOverlap` relates it to `overlaps` |
| BookingController.FindConflict | backend/controllers/bookingController.js:16-22 | `findOne` of the conflict query: a found index is in range and its booking conflicts; none is found exactly when no stored booking conflicts |
| BookingController.Create | backend/controllers/bookingController.js:4-36 | 404 "Facility not found" or "Court not found", 400 "Time slot not available" when the conflict query matches, 500 "Server error" when `startTime` or `endTime` is empty (the schema's `required`), nothing written on failure; otherwise exactly one pending booking is appended with the caller as user, a snapshot of the court, and `totalAmount = pricePerHour * duration` |
| BookingController.CreateKeepsNoDoubleBooking | backend/controllers/bookingController.js:16-36 | a successful `create` keeps "no two pending/confirmed bookings of one court and day intersect" |
| BookingController.StrLessDigits | backend/controllers/bookingController.js:21 | on zero-padded times the string order is the left-to-right order of the four digits |
| BookingController.StrLessCanonical | backend/controllers/bookingController.js:21 | on zero-padded times the string order of the conflict query is the order of minutes |
| BookingController.ConflictsIsOverlap | backend/controllers/bookingController.js:16-22 | on zero-padded times the conflict query is the `overlaps` test of the time utility |
| BookingController.NoDoubleBookingInMinutes | backend/controllers/bookingController.js:16-36 | with zero-padded times, a ledger without double bookings has no two slot-holding bookings of one court and day that overlap in minutes |
| BookingController.UnpaddedTimeEscapesConflictQuery | backend/controllers/bookingController.js:21 | a request for "9:00"-"11:00" overlaps a "10:00"-"10:30" booking in minutes, yet the conflict query does not match it |
| BookingController.MyBookings | backend/controllers/bookingController.js:45-56 | only the caller's bookings, with the given status when one is named, at most `limit` of them (10 by default), the total of matches and `ceil(total / limit)` pages; a negative skip is a server error |
| BookingController.MyBookingsCoversAll | backend/controllers/bookingController.js:47-52 | the `i`-th newest matching booking is shown on page `i / limit + 1` |
| BookingController.UpdateStatus | backend/controllers/bookingController.js:58-75 | 404 for an unknown booking and 403 unless the caller made it, with nothing changed; an unknown status fails the save; otherwise the status becomes exactly the requested one, and reason, time and caller are stamped only on cancellation |
| BookingController.ReleasingKeepsNoDoubleBooking | backend/controllers/bookingController.js:64-70 | setting a booking to cancelled or completed keeps the no-double-booking invariant |
| BookingController.CancellationFreesSlot | backend/controllers/bookingController.js:16-69 | cancelling the one booking that conflicted with a request that names both times lets that request through `create` |
| BookingController.ReactivationClash | backend/controllers/bookingController.js:58-75 | setting a booking to "pending" while another booking holds an intersecting stretch of its court and day leaves a double booking |
| BookingController.ReactivationDoubleBooks | backend/controllers/bookingController.js:64 | with no transition guard, setting a cancelled booking back to "pending" after its slot was taken double-books the court |
| BookingController.HandleCreate | backend/controllers/bookingController.js:4-43 | the handler's reply and the store it leaves are those of `Create`, and the store stays well formed |
| BookingController.HandleUpdateStatus | backend/controllers/bookingController.js:58-75 | the handler's reply and the store it leaves are those of `UpdateStatus` |
| Payments.IntentFor | backend/routes/payments.js:17-21 | definition of the intent request: amount the booking's `totalAmount` in cents, currency `usd`, and the booking id |
| Payments.CreatePaymentIntent | backend/routes/payments.js:10-37 | 404 for an unknown booking and 403 "Unauthorized" unless the caller made it, with no payment created; a booking whose facility cannot be read (the `populate` referent is missing) or a provider failure is 500 "Payment setup failed" with the store unchanged; otherwise exactly one `created` payment for the booking's amount with the intent id; the bookings never change |
| Payments.MarkPaid | backend/routes/payments.js:47-49 | the booking becomes paid and confirmed and carries the intent id; nothing else changes |
| Payments.SettlePayment | backend/routes/payments.js:52 | the first payment with the intent id becomes `succeeded` with the latest charge; with none the payments are unchanged |
| Payments.Confirm | backend/routes/payments.js:39-58 | 500 when the lookup fails and 400 "Payment not completed" unless the provider reports `succeeded`, 404 for an unknown booking, nothing changed on failure; otherwise the booking is marked paid, then the intent's payment settled; no ownership check |
| Payments.SettleIdempotent | backend/routes/payments.js:52 | settling the same intent twice is settling it once |
| Payments.ConfirmIdempotent | backend/routes/payments.js:39-58 | replaying `confirm` with the same intent gives the same reply and the same store |
| Payments.CreateThenConfirm | backend/routes/payments.js:23-52 | the payment opened for a booking is the one a successful confirmation settles, with the charge id, and the booking ends paid and confirmed |
| Payments.ConfirmKeepsNoDoubleBooking | backend/routes/payments.js:47-50 | confirming a booking that still holds its slot keeps the no-double-booking invariant |
| Payments.ConfirmRevivesCancelled | backend/routes/payments.js:47-50 | a payment that succeeds for a booking cancelled in the meantime makes it confirmed again on a slot someone else holds |
| Payments.HandleCreatePaymentIntent | backend/routes/payments.js:10-37 | the handler's reply and the store it leaves are those of `CreatePaymentIntent` |
| Payments.HandleConfirm | backend/routes/payments.js:39-58 | the handler's reply and the store it leaves are those of `Confirm` |
| FacilityController.List | backend/controllers/facilityController.js:4-30 | only approved and active facilities, at most `limit` of them (12 by default), with the count of listed facilities and `ceil(total / limit)` pages |
| FacilityController.ListCoversAll | backend/controllers/facilityController.js:24-26 | the `i`-th listed facility is shown on page `i / limit + 1` |
| FacilityController.GetById | backend/controllers/facilityController.js:32-40 | 404 exactly when no facility has the id; otherwise the stored facility |
| FacilityController.FacilityFromBody | backend/controllers/facilityController.js:44-45 | name, description and courts are the body's, empty when the body omits them; the caller is the owner whatever the body says; unapproved and active unless the body says otherwise |
| FacilityController.Create | backend/controllers/facilityController.js:42-51 | a facility without a name, a description or complete courts is a server error with nothing stored; otherwise the document built from the body, owned by the caller, is returned and appended |
| FacilityController.CreateThenGetById | backend/controllers/facilityController.js:32-51 | a facility just created is found by its id |
| FacilityController.CreateSelfApproved | backend/controllers/facilityController.js:44 | a body that names itself approved is listed at once, with no administrator involved |
| FacilityController.Patch | backend/controllers/facilityController.js:58 | every field the body carries replaces the stored one, the owner included, and the id is kept |
| FacilityController.MayEdit | backend/controllers/facilityController.js:57 | definition of who may update a facility: an admin or its owner; `UpdateOnlyByOwnerOrAdmin` states what follows for everyone else |
| FacilityController.Update | backend/controllers/facilityController.js:53-63 | 404 for an unknown facility and 403 unless the caller is an admin or the owner, nothing changed; a rejected body is a server error; otherwise the facility is patched in place |
| FacilityController.UpdateOnlyByOwnerOrAdmin | backend/controllers/facilityController.js:57 | a caller who is neither admin nor owner leaves every facility as it was |
| FacilityController.PatchKeepsValid | backend/controllers/facilityController.js:58 | a body the update validators accept keeps a valid facility valid |
| FacilityController.UpdateThenGetById | backend/controllers/facilityController.js:53-58 | after an update, the facility reads back as patched |
| FacilityController.Availability | backend/controllers/facilityController.js:65-80 | 404 when the facility is missing; otherwise exactly the pending or confirmed bookings of the facility on that day, of the named court when one is named |
| FacilityController.BookedOn | backend/controllers/facilityController.js:73-74 | definition of the availability query: bookings of the facility on that day with a slot-holding status, of the named court when one is named; `Availability` returns exactly these |
| FacilityController.AvailabilityCourtSubset | backend/controllers/facilityController.js:74 | naming a court narrows the answer |
| FacilityController.AvailabilityExplainsConflict | backend/controllers/facilityController.js:73-75 | `create` refuses a request exactly when a booking that availability lists for its court and day intersects it |
| FacilityController.HandleCreate | backend/controllers/facilityController.js:42-51 | the handler's reply and the store it leaves are those of `Create` |
| FacilityController.HandleUpdate | backend/controllers/facilityController.js:53-63 | the handler's reply and the store it leaves are those of `Update` |
| Scenario.Afternoon | backend/controllers/bookingController.js:4-75 | book 14:00-15:00 at 2000 cents an hour and pay 2000; an overlapping request is refused; paying confirms the booking; cancelling stamps it and lets the overlapping request through |

## Left out

- Number coercion in `parseTime`: `Number` of an empty field is 0 and of anything but digits is NaN. Decimal fractions (`Number("10.5")` is 10.5), signs, blanks, exponents and hexadecimal forms are not modelled.
- Fractional prices and durations, and floating-point rounding, are not modelled. Money is whole cents and `duration` is whole hours.
- `Date` handling is not modelled: time zones, `setHours`, and the end-of-day date that `create` stores. A calendar day is an integer.
- `populate` in `create-payment-intent` supplies the booking's facility and user. A missing facility throws and gives 500 "Payment setup failed", which is modelled; a missing user is not (see below). Elsewhere `populate` only decorates replies and is left out.
- The `sortBy` order of `list` is left out. Facilities are listed in store order.
- Ties in `createdAt` are left out. Newest first is the reverse of insertion order.
- The `search`, `sportType`, `city`, price and `rating` filters of `list` are left out; their queries cannot be modelled without their data.
- Query strings reach `page` and `limit` as strings. The model takes integers.
- Concurrency is left out. Each handler is one atomic step, so the check-then-act race in `create` and the two separate writes of `confirm` are not modelled.
- Sockets, authentication and email are left out. The caller's id and role arrive as parameters.
- Mongoose validation is modelled only for the status enum, the required facility and court strings, and the booking's required `startTime` and `endTime` (an empty string fails the save with 500 after the conflict query). Other required fields are always present in the model's request types.
- A malformed id string makes `findById` throw a CastError, answered with 500 "Server error" instead of 404. Ids are naturals in the model, so such a string cannot be expressed.
- A body without `status` in `updateStatus` is not modelled; the status is always a string.
- `asyncHandler` is left out. It only forwards rejections to Express.
- Sub-document ids of new courts are taken from the body rather than generated.
- `notes`, `method.brand`/`method.last4`, timestamps, addresses, photos, operating hours and ratings are not modelled.
- Keys such as `__proto__` in `pick`/`omit` are not modelled; an object is a plain key map.
- `create-payment-intent` fails if the booking's user document is missing. There is no user collection in the model.
- The provider metadata (facility name, user email) is not modelled beyond the facility's existence.
- A court's `isActive` is carried but never consulted, as in the source.
