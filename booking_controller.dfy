/**
 * The booking controller: `createBooking` validates a reservation request and
 * appends its dates to the apartment's `notAvailable` calendar; `updateBooking`
 * moves a booking through its statuses and releases the calendar on completion.
 * The payment intent, the clock and the database lookups are parameters.
 */
module Bookings {
  import opened Wrappers
  import opened Sequences
  import opened Calendar

  /**
   * Status of a booking. `Active` stands for the status a new booking gets
   * from the Booking model's default; the two others are the strings the
   * controller writes.
   */
  datatype Status = Active | Checked | Complete

  /** The errors the controller reports, one per message of the source. */
  datatype BookingError =
    | InvalidPaymentInfo  // "Invalid Payment Info"
    | BuildingNotFound    // "Building not found"
    | ApartmentNotFound   // "Apartment not found"
    | NotInBuilding       // "This Apartment is not available in this building"
    | NoDates             // "Please insert booking dates"
    | PastDate            // "given date is before than current date"
    | DuplicateDate       // "Can't book same date more than once"
    | AlreadyBooked       // "Apartment already booked"
    | CantChangeStatus    // "Can't change booking status"
    | BookingNotFound     // "Booking not found"
    | AlreadyCheckedIn    // "User already checked in"
    | ApartmentMissing    // the fault raised when a completed booking's apartment no longer exists

  /** What the payment provider reports about a payment intent. */
  datatype PaymentIntent = PaymentIntent(status: string, amount: int)

  /**
   * A building as the booking controller reads it: its id and the ids of its
   * apartments. The search reads populated copies of buildings and apartments
   * as values (`Search.Listing`, `Search.Unit`); this module holds the documents it updates.
   */
  datatype Building = Building(id: int, apartments: seq<int>)

  /** An apartment document; bookings append to and release from its calendar. */
  class Apartment {
    const id: int
    var notAvailable: seq<int>

    constructor (id: int, notAvailable: seq<int>)
      ensures this.id == id && this.notAvailable == notAvailable
    {
      this.id := id;
      this.notAvailable := notAvailable;
    }
  }

  /** A booking document; only its status changes after creation. */
  class Booking {
    const building: int
    const apartment: int
    const dates: seq<int>
    const totalPrice: int
    var status: Status

    constructor (building: int, apartment: int, dates: seq<int>, totalPrice: int)
      ensures this.building == building && this.apartment == apartment
      ensures this.dates == dates && this.totalPrice == totalPrice
      ensures status == Active
    {
      this.building := building;
      this.apartment := apartment;
      this.dates := dates;
      this.totalPrice := totalPrice;
      status := Active;
    }
  }

  /** The payment gate: the intent succeeded and charged the total price in cents. */
  predicate PaymentAccepted(intent: PaymentIntent, totalPrice: int)
  {
    intent.status == "succeeded" && intent.amount == totalPrice * 100
  }

  /** No requested date lies before today. */
  predicate NoneBefore(dates: seq<int>, today: int)
  {
    forall i :: 0 <= i < |dates| ==> today <= dates[i]
  }

  /**
   * The date checks of `createBooking`, in the source's order: a non-empty
   * request, no past date, no date twice, no date already booked.
   */
  function ValidateDates(dates: seq<int>, today: int, notAvailable: seq<int>): (r: Outcome<BookingError>)
    ensures r == Pass <==>
      |dates| > 0 && NoneBefore(dates, today) && !Repeats(dates)
      && forall d :: d in dates ==> d !in notAvailable
    ensures r == Fail(NoDates) <==> |dates| == 0
    ensures r == Fail(PastDate) <==> exists i :: 0 <= i < |dates| && dates[i] < today
    ensures r == Fail(DuplicateDate) <==> |dates| > 0 && NoneBefore(dates, today) && Repeats(dates)
    ensures r == Fail(AlreadyBooked) <==>
      NoneBefore(dates, today) && !Repeats(dates) && exists d :: d in dates && d in notAvailable
  {
    DistinctCount(dates);
    IsBookedIff(notAvailable, dates);
    if |dates| < 1 then Fail(NoDates)
    else if !NoneBefore(dates, today) then Fail(PastDate)
    else if HasDuplicate(dates) then Fail(DuplicateDate)
    else if IsBooked(notAvailable, dates) then Fail(AlreadyBooked)
    else Pass
  }

  /**
   * Every check `createBooking` makes before it touches the calendar: the
   * payment, the building and apartment lookups, membership, then the dates.
   */
  function CheckRequest(intent: PaymentIntent, totalPrice: int, building: Option<Building>,
                        apartment: Option<int>, notAvailable: seq<int>, dates: seq<int>, today: int): (r: Outcome<BookingError>)
    ensures !PaymentAccepted(intent, totalPrice) ==> r == Fail(InvalidPaymentInfo)
    ensures r.Pass? <==>
      PaymentAccepted(intent, totalPrice) && building.Some? && apartment.Some?
      && apartment.value in building.value.apartments
      && |dates| > 0 && NoneBefore(dates, today) && !Repeats(dates)
      && forall d :: d in dates ==> d !in notAvailable
  {
    if !PaymentAccepted(intent, totalPrice) then Fail(InvalidPaymentInfo)
    else if building.None? then Fail(BuildingNotFound)
    else if apartment.None? then Fail(ApartmentNotFound)
    else if apartment.value !in building.value.apartments then Fail(NotInBuilding)
    else ValidateDates(dates, today, notAvailable)
  }

  /** The first error of a list of checks, each a condition with the error it reports when false. */
  function FirstFailure(checks: seq<(bool, BookingError)>): (r: Outcome<BookingError>)
    ensures r.Pass? <==> forall i :: 0 <= i < |checks| ==> checks[i].0
    ensures r.Fail? ==> exists i :: 0 <= i < |checks| && !checks[i].0 && r.error == checks[i].1
                                     && forall j :: 0 <= j < i ==> checks[j].0
  {
    if checks == [] then Pass
    else if !checks[0].0 then Fail(checks[0].1)
    else FirstFailure(checks[1..])
  }

  /** The checks of `createBooking` as conditions in the order the source tests them. */
  function RequestChecks(intent: PaymentIntent, totalPrice: int, building: Option<Building>,
                         apartment: Option<int>, notAvailable: seq<int>, dates: seq<int>, today: int): seq<(bool, BookingError)>
  {
    [ (PaymentAccepted(intent, totalPrice), InvalidPaymentInfo),
      (building.Some?, BuildingNotFound),
      (apartment.Some?, ApartmentNotFound),
      (building.Some? && apartment.Some? && apartment.value in building.value.apartments, NotInBuilding),
      (|dates| > 0, NoDates),
      (NoneBefore(dates, today), PastDate),
      (!Repeats(dates), DuplicateDate),
      (forall d :: d in dates ==> d !in notAvailable, AlreadyBooked) ]
  }

  /** `createBooking` reports the first failing check, in the fixed order of the source. */
  lemma CheckOrder(intent: PaymentIntent, totalPrice: int, building: Option<Building>,
                   apartment: Option<int>, notAvailable: seq<int>, dates: seq<int>, today: int)
    ensures CheckRequest(intent, totalPrice, building, apartment, notAvailable, dates, today)
         == FirstFailure(RequestChecks(intent, totalPrice, building, apartment, notAvailable, dates, today))
  {
    var c0 := RequestChecks(intent, totalPrice, building, apartment, notAvailable, dates, today);
    var c1 := c0[1..];
    var c2 := c1[1..];
    var c3 := c2[1..];
    var c4 := c3[1..];
    var c5 := c4[1..];
    var c6 := c5[1..];
    var c7 := c6[1..];
    var c8 := c7[1..];
    assert c8 == [];
    assert FirstFailure(c7) == (if c7[0].0 then Pass else Fail(AlreadyBooked));
    assert FirstFailure(c6) == (if c6[0].0 then FirstFailure(c7) else Fail(DuplicateDate));
    assert FirstFailure(c5) == (if c5[0].0 then FirstFailure(c6) else Fail(PastDate));
    assert FirstFailure(c4) == (if c4[0].0 then FirstFailure(c5) else Fail(NoDates));
    assert FirstFailure(c4) == ValidateDates(dates, today, notAvailable);
    assert FirstFailure(c3) == (if c3[0].0 then FirstFailure(c4) else Fail(NotInBuilding));
    assert FirstFailure(c2) == (if c2[0].0 then FirstFailure(c3) else Fail(ApartmentNotFound));
    assert FirstFailure(c1) == (if c1[0].0 then FirstFailure(c2) else Fail(BuildingNotFound));
    assert FirstFailure(c0) == (if c0[0].0 then FirstFailure(c1) else Fail(InvalidPaymentInfo));
  }

  /** The apartment a lookup found, as an optional id. */
  function IdOf(apartment: Apartment?): Option<int>
  {
    if apartment == null then None else Some(apartment.id)
  }

  /** The calendar of the apartment a lookup found; empty when it found none. */
  function CalendarOf(apartment: Apartment?): seq<int>
    reads apartment
  {
    if apartment == null then [] else apartment.notAvailable
  }

  /**
   * `createBooking`: on a request that passes every check, append each
   * requested date to the apartment's calendar and record a new booking with
   * exactly those dates; on any failure, change nothing.
   */
  method CreateBooking(intent: PaymentIntent, totalPrice: int, building: Option<Building>,
                       apartment: Apartment?, dates: seq<int>, today: int)
    returns (r: Result<Booking, BookingError>)
    modifies apartment
    ensures var verdict := CheckRequest(intent, totalPrice, building, IdOf(apartment),
                                        old(CalendarOf(apartment)), dates, today);
            (r.Ok? <==> verdict.Pass?) && (r.Err? ==> r.error == verdict.error)
    ensures r.Err? && apartment != null ==> apartment.notAvailable == old(apartment.notAvailable)
    ensures r.Ok? ==> apartment != null && building.Some?
                      && apartment.notAvailable == old(apartment.notAvailable) + dates
                      && fresh(r.value) && r.value.dates == dates && r.value.status == Active
                      && r.value.apartment == apartment.id && r.value.building == building.value.id
                      && r.value.totalPrice == totalPrice
  {
    var verdict := CheckRequest(intent, totalPrice, building, IdOf(apartment), CalendarOf(apartment), dates, today);
    if verdict.Fail? {
      return Err(verdict.error);
    }
    var formattedDates: seq<int> := [];
    var i := 0;
    while i < |dates|
      invariant 0 <= i <= |dates|
      invariant apartment.notAvailable == old(apartment.notAvailable) + dates[..i]
      invariant formattedDates == dates[..i]
    {
      apartment.notAvailable := apartment.notAvailable + [dates[i]];
      formattedDates := formattedDates + [dates[i]];
      i := i + 1;
    }
    assert dates[..i] == dates;
    var booking := new Booking(building.value.id, apartment.id, formattedDates, totalPrice);
    r := Ok(booking);
  }

  /** Order of the statuses; a booking never moves down it. */
  function Rank(s: Status): nat
  {
    match s
    case Active => 0
    case Checked => 1
    case Complete => 2
  }

  /**
   * The status check of `updateBooking`: only "Complete" and "Checked" are
   * accepted targets; completing fails on a completed booking, checking in
   * fails on a checked or completed one.
   */
  function Transition(current: Status, requested: string): (r: Result<Status, BookingError>)
    ensures r.Ok? ==> Rank(current) < Rank(r.value)
    ensures r.Ok? <==> (requested == "Complete" && current != Complete)
                       || (requested == "Checked" && current == Active)
    ensures r.Ok? ==> (r.value == Complete <==> requested == "Complete")
    ensures r == Err(AlreadyCheckedIn) <==> requested == "Checked" && current == Checked
    ensures r.Err? && r.error != AlreadyCheckedIn ==> r.error == CantChangeStatus
  {
    if requested != "Complete" && requested != "Checked" then Err(CantChangeStatus)
    else if requested == "Complete" then
      if current == Complete then Err(CantChangeStatus) else Ok(Complete)
    else if current == Checked then Err(AlreadyCheckedIn)
    else if current == Complete then Err(CantChangeStatus)
    else Ok(Checked)
  }

  /**
   * The status after a series of update requests, with the number of them
   * that were accepted: every accepted request moves the status up, so at
   * most two are ever accepted and a completed booking stays completed.
   */
  function Replay(current: Status, requests: seq<string>): (r: (Status, nat))
    ensures Rank(current) + r.1 <= Rank(r.0)
    ensures r.1 <= 2
    decreases |requests|
  {
    if requests == [] then (current, 0)
    else match Transition(current, requests[0])
      case Ok(next) =>
        var rest := Replay(next, requests[1..]);
        (rest.0, rest.1 + 1)
      case Err(_) => Replay(current, requests[1..])
  }

  /**
   * `updateBooking`: an unknown target or a missing booking fails first; a
   * rejected transition changes nothing; completing releases the booking's
   * dates from the apartment's calendar; checking in changes only the status.
   */
  method UpdateBooking(requested: string, booking: Booking?, apartment: Apartment?)
    returns (r: Outcome<BookingError>)
    requires booking != null && apartment != null ==> apartment.id == booking.apartment
    modifies booking, apartment
    ensures r.Fail? ==> ((booking != null ==> booking.status == old(booking.status))
                         && (apartment != null ==> apartment.notAvailable == old(apartment.notAvailable)))
    ensures requested != "Complete" && requested != "Checked" ==> r == Fail(CantChangeStatus)
    ensures (requested == "Complete" || requested == "Checked") && booking == null ==> r == Fail(BookingNotFound)
    ensures booking != null && Transition(old(booking.status), requested).Err? ==>
              r == Fail(Transition(old(booking.status), requested).error)
    ensures booking != null && Transition(old(booking.status), requested) == Ok(Complete) ==>
              if apartment == null then r == Fail(ApartmentMissing)
              else r == Pass && booking.status == Complete
                   && apartment.notAvailable == Without(old(apartment.notAvailable), booking.dates)
    ensures booking != null && Transition(old(booking.status), requested) == Ok(Checked) ==>
              r == Pass && booking.status == Checked
              && (apartment != null ==> apartment.notAvailable == old(apartment.notAvailable))
  {
    if requested != "Complete" && requested != "Checked" {
      return Fail(CantChangeStatus);
    }
    if booking == null {
      return Fail(BookingNotFound);
    }
    var next := Transition(booking.status, requested);
    if next.Err? {
      return Fail(next.error);
    }
    if requested == "Complete" {
      if apartment == null {
        return Fail(ApartmentMissing);
      }
      apartment.notAvailable := Without(apartment.notAvailable, booking.dates);
      booking.status := Complete;
    } else {
      booking.status := Checked;
    }
    r := Pass;
  }

  /**
   * A client run of the engine on one apartment: book days 1 and 2, then fail
   * to book days 2 and 3 because day 2 is taken.
   */
  method ScenarioConflict()
  {
    var paid := PaymentIntent("succeeded", 5000);
    var home := Building(7, [3]);
    var unit := new Apartment(3, []);
    assert !Repeats([1, 2]);
    assert CheckRequest(paid, 50, Some(home), Some(3), [], [1, 2], 1) == Pass;
    var first := CreateBooking(paid, 50, Some(home), unit, [1, 2], 1);
    assert first.Ok? && unit.notAvailable == [1, 2];

    var taken := 2;
    assert taken in [2, 3] && taken in [1, 2];
    assert ValidateDates([2, 3], 1, [1, 2]) == Fail(AlreadyBooked);
    var clash := CreateBooking(paid, 50, Some(home), unit, [2, 3], 1);
    assert clash == Err(AlreadyBooked) && unit.notAvailable == [1, 2];
  }

  /**
   * The same apartment later on: completing the booking of days 1 and 2
   * frees them, completing it again fails, and days 2 and 3 can then be booked.
   */
  method ScenarioRelease()
  {
    var unit := new Apartment(3, [1, 2]);
    var stay := new Booking(7, 3, [1, 2], 50);
    WithoutAll([1, 2], [1, 2]);
    assert Transition(Active, "Complete") == Ok(Complete);
    var done := UpdateBooking("Complete", stay, unit);
    assert done == Pass && unit.notAvailable == [];
    assert Transition(Complete, "Complete") == Err(CantChangeStatus);
    var again := UpdateBooking("Complete", stay, unit);
    assert again == Fail(CantChangeStatus);

    var paid := PaymentIntent("succeeded", 5000);
    var home := Building(7, [3]);
    assert !Repeats([2, 3]);
    assert CheckRequest(paid, 50, Some(home), Some(3), [], [2, 3], 1) == Pass;
    var second := CreateBooking(paid, 50, Some(home), unit, [2, 3], 1);
    assert second.Ok? && unit.notAvailable == [2, 3];
  }
}
