# Booking engine of the lodging backend, modelled in Dafny

This project models the reservation core of a short-term lodging backend. Buildings own
apartments, and each apartment keeps a `notAvailable` calendar: the list of days that bookings
have claimed. Three controller operations are modelled:

- `createBooking` checks a reservation in a fixed order: payment, building, apartment,
  membership, non-empty request, no past day, no day twice, no day already booked. The first
  failing check is reported. On success the requested days are appended to the apartment's
  calendar and a booking with exactly those days is recorded.
- `updateBooking` moves a booking to `Checked` (check-in) or `Complete`. Completion releases the
  booking's days from the calendar.
- `getAllBuildings` is the availability search. It checks the `person` and `apartment` counts
  and the date range, expands the range into its days, and filters the buildings by apartment
  count, by room for the party, and by an apartment that is free for the whole stay.

Days are integer day numbers, and the current day is a parameter. The payment intent and the
database lookups are parameters too. A lookup that finds nothing is `None` or a `null` object.
Apartments and bookings are classes, because the controller updates their fields in place.
Buildings are values, because they are only read.

Modules:

- `Wrappers` (`wrappers.dfy`): `Option`, `Result` and `Outcome`.
- `Sequences` (`sequences.dfy`): order-preserving subsequences and the `filter` of the search.
- `Calendar` (`calendar.dfy`): the duplicate and conflict tests, and `Without`, the calendar
  after a release.
- `Bookings` (`booking_controller.dfy`): `createBooking` and `updateBooking`.
- `Search` (`building_controller.dfy`): `getAllBuildings`.
- `CalendarConsistency` (`consistency.dfy`): the invariant linking a calendar to its bookings,
  and that every booking operation preserves it.

Three choices follow the controller code:

- The calendar is a list, as in the controller. A booking appends its days, and a release
  removes every occurrence of them.
- Checking in a completed booking fails with the same "Can't change booking status" error as
  completing it twice.
- There is no per-apartment lock, no concurrency error and no release hook for cascade deletes,
  because the controller has none.

## Model

| member | source | states |
|---|---|---|
| `Bookings.CheckRequest` | backend/controllers/bookingController.js:15-56 | A failed payment (status not "succeeded", or amount not `totalPrice * 100`) is rejected whatever else holds. A request passes exactly when the payment is accepted, the building and apartment exist, the apartment belongs to the building, and the days are non-empty, not past, pairwise distinct and free in the calendar. |
| `Bookings.ValidateDates` | backend/controllers/bookingController.js:34-56 | Characterises each outcome of the date checks. An empty request gives `NoDates`. A day before today gives `PastDate`, so same-day bookings are allowed. A day occurring twice in an otherwise valid request gives `DuplicateDate`, whatever the calendar holds. A day already in the calendar gives `AlreadyBooked`. Otherwise the request passes. |
| `Bookings.CheckOrder` | backend/controllers/bookingController.js:15-56 | The verdict equals the first failing check in the source's order: payment, building, apartment, membership, non-empty, no past day, no duplicate, no conflict. |
| `Bookings.FirstFailure` | backend/controllers/bookingController.js:15-56 | A list of checks passes exactly when every check holds; otherwise it reports the error of the first check that fails, all earlier checks holding. |
| `Bookings.CreateBooking` | backend/controllers/bookingController.js:9-80 | Succeeds exactly when `CheckRequest` passes. On failure it reports that check's error and the calendar is unchanged, so nothing is partially booked. On success the new calendar is the old one followed by the requested days in request order, and a fresh `Active` booking records exactly those days, the apartment, the building and the price. |
| `Calendar.DistinctCount` | backend/controllers/bookingController.js:43 | A list is never shorter than its set of days. The source's test `dates.length !== new Set(dates).size` holds exactly when some day occurs at two positions. |
| `Calendar.IsBookedIff` | backend/controllers/bookingController.js:48-55 | The conflict test, including its guard on a non-empty calendar, holds exactly when the request and the calendar share a day. |
| `Calendar.Without` | backend/controllers/bookingController.js:100-102 | The released calendar holds a day exactly when the old calendar held it and the booking did not claim it. It is an order-preserving subsequence of the old calendar. |
| `Calendar.WithoutCount` | backend/controllers/bookingController.js:100-102 | Releasing removes every occurrence of a released day and keeps the multiplicity of every other day. |
| `Calendar.WithoutAppend` | backend/controllers/bookingController.js:100-102 | Releasing from a concatenation is the concatenation of the releases, so the surviving days keep their relative order. |
| `Calendar.WithoutAbsent` | backend/controllers/bookingController.js:100-102 | Releasing days that are not in the calendar leaves it as it is. |
| `Calendar.WithoutAll` | backend/controllers/bookingController.js:100-102 | Releasing every day of the calendar empties it. |
| `Calendar.ReleaseUndoesBlock` | backend/controllers/bookingController.js:58-62 | When a request passed the conflict check, releasing its days after they were appended restores the calendar it found. |
| `Calendar.WithoutKeepsDistinct` | backend/controllers/bookingController.js:100-102 | Releasing days from a calendar without repeated days leaves a calendar without repeated days. |
| `Calendar.AppendKeepsDistinct` | backend/controllers/bookingController.js:43-62 | Appending a duplicate-free request that shares no day with a duplicate-free calendar keeps the calendar duplicate-free. |
| `Bookings.Transition` | backend/controllers/bookingController.js:86-115 | Only "Complete" and "Checked" can succeed. Completing succeeds from any status except `Complete`, and checking in only from the initial status. A re-check-in fails with `AlreadyCheckedIn`, and every other refusal is `CantChangeStatus`. An accepted update strictly raises the status (initial < Checked < Complete). |
| `Bookings.Replay` | backend/controllers/bookingController.js:83-115 | Over any series of update requests the status never goes down. At most two requests are accepted, and each raises the status. |
| `Bookings.UpdateBooking` | backend/controllers/bookingController.js:83-115 | An unknown target fails before the lookup, and a missing booking fails next. A refused transition reports its error and changes nothing. Completing sets `Complete` and replaces the calendar by `Without(old calendar, booking days)`. Checking in sets `Checked` and leaves the calendar untouched. |
| `CalendarConsistency.CreateKeepsConsistent` | backend/controllers/bookingController.js:34-75 | If the calendar holds exactly the days of the non-complete bookings, none of them twice, and no two such bookings share a day, then the same holds after appending a request that passed the date checks as a new booking. |
| `CalendarConsistency.CheckInKeepsConsistent` | backend/controllers/bookingController.js:109-114 | A check-in keeps that invariant with the calendar untouched. |
| `CalendarConsistency.CompleteKeepsConsistent` | backend/controllers/bookingController.js:94-106 | A completion keeps that invariant, and afterwards none of the completed booking's days is blocked. |
| `Search.ExpandRange` | backend/controllers/buildingController.js:167-172 | The expanded range has length `d2 - d1 + 1` and its i-th day is `d1 + i`, so it is strictly ascending. It contains exactly the days from `d1` to `d2` inclusive, and it is empty when `d1 > d2`. |
| `Search.HasRoomForIff` | backend/controllers/buildingController.js:184-190 | The person filter keeps a building with a Studio when the party is larger than one, and any building with at least one apartment otherwise. |
| `Search.FreeOnRange` | backend/controllers/buildingController.js:192-200 | Over the expanded range, the availability test holds exactly when some apartment has no calendar day between `d1` and `d2`. |
| `Sequences.Filter` | backend/controllers/buildingController.js:184-200 | A filter keeps exactly the elements its test accepts, as an order-preserving subsequence of its input. Every accepted element keeps its number of copies, and a rejected element has none. |
| `Search.GetAllBuildings` | backend/controllers/buildingController.js:152-206 | A `person` below 1 is rejected first. Next comes an `apartment` below 1, then a start day after the end day. The counts are numbers as `Number(...)` parses them, so fractions are possible: `person=1.5` asks for a Studio, and `apartment=1.5` asks for at least 2 apartments. Otherwise the result keeps exactly the listed buildings that have at least `apartment` apartments (0 when absent). With `person`, a kept building also has room for the party. With both range ends, it also has an apartment free for the whole stay. Without a range there is no date filtering. The result is an order-preserving subsequence of the input. Each kept building keeps its number of copies. |

## Left out

- The payment provider call is left out. `PaymentIntent` stands for the intent it returns. `totalPrice` is an integer, so the floating-point rounding of `totalPrice * 100` is not modelled.
- Database reads and writes (`findById`, `create`, `save`, `find`, `populate`) are not modelled. Lookups are parameters. The list of all bookings that `updateBooking` returns is not modelled.
- The order of the two saves in `createBooking` is not modelled, nor is the race between reading and saving `notAvailable`. Both are persistence and concurrency concerns; the model is sequential.
- JavaScript dates are integer day numbers. The past-day check truncates to the day. The conflict check, the release and the search's availability test compare exact timestamps, and the duplicate check compares the raw request values. All of them compare day numbers here. The search's range loop steps by local calendar days, which here is adding 1 to a day number; time zones and daylight-saving shifts are not modelled.
- `Search.GetAllBuildings`: the start and end days are compared as integers, while the source compares the query strings. Unparsable dates are not modelled.
- `Search.GetAllBuildings`: the `person` and `apartment` parameters are either absent (`None`) or a number, fractions included (`real`). An empty parameter string is falsy in the source and counts as absent here. A value that parses to `NaN` is not modelled.
- `Search.GetAllBuildings`: the location keyword search is not modelled. It relies on MongoDB regular expressions, so the input is the list of buildings that already matched it, in database order.
- `Search.GetAllBuildings`: buildings arrive with their apartments populated, and the apartment count is the length of that list. Dangling apartment references are not modelled.
- The Booking model is not part of this model. The status a new booking gets from its default is `Active`. The `Booking` class records the building, apartment, dates, price and status. It drops the fields `user`, `phone`, `paymentInfo` and `paidAt` that `createBooking` stores, because no check reads them.
- `Bookings.UpdateBooking`: when the booking's apartment no longer exists, the source throws a TypeError and the error middleware reports it. Here that case is the error `ApartmentMissing`, with nothing changed.
- The picture uploads, the cascade deletes of the building controller, the apartment controller, the routes and the read-only getters are not modelled. They are storage wiring with no calendar logic.
