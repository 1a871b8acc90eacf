/**
 * The availability search of the building controller, `getAllBuildings`:
 * parameter checks, expansion of the requested stay into its days, and the
 * apartment-count, person and availability filters over the listed buildings.
 */
module Search {
  import opened Wrappers
  import opened Sequences

  /** The two apartment types of the Apartment model. */
  datatype ApartmentType = Appartement | Studio

  /** An apartment as the populated search result carries it: its type and its `notAvailable` calendar. */
  datatype Unit = Unit(kind: ApartmentType, notAvailable: seq<int>)

  /**
   * A building with its apartment references populated. The search only reads
   * these values; the booking controller's `Building` and `Apartment` are the
   * documents it looks up and updates.
   */
  datatype Listing = Listing(id: int, apartments: seq<Unit>)

  /** The errors the search reports. */
  datatype SearchError =
    | PersonRequired     // "At least one person required"
    | ApartmentRequired  // "At least one apartment required"
    | BadDateRange       // "Please check start and end date"

  /** `days` lists every day from `d1` to `d2` inclusive, in order; it is empty when `d1 > d2`. */
  predicate IsDayRange(days: seq<int>, d1: int, d2: int)
  {
    |days| == (if d1 <= d2 then d2 - d1 + 1 else 0)
    && forall i :: 0 <= i < |days| ==> days[i] == d1 + i
  }

  /** The loop of `getAllBuildings` that collects the days of the stay one after the other. */
  method ExpandRange(d1: int, d2: int) returns (days: seq<int>)
    ensures IsDayRange(days, d1, d2)
    ensures forall i, j :: 0 <= i < j < |days| ==> days[i] < days[j]
    ensures forall d :: d in days <==> d1 <= d <= d2
  {
    days := [];
    var day := d1;
    while day <= d2
      invariant day == d1 + |days|
      invariant d1 <= d2 ==> day <= d2 + 1
      invariant d1 > d2 ==> days == []
      invariant forall i :: 0 <= i < |days| ==> days[i] == d1 + i
      decreases d2 - day
    {
      days := days + [day];
      day := day + 1;
    }
    forall d | d1 <= d <= d2
      ensures d in days
    {
      assert days[d - d1] == d;
    }
  }

  /** The person filter's test: some apartment suits the party (a Studio when more than one person). */
  predicate HasRoomFor(b: Listing, persons: real)
  {
    exists i :: 0 <= i < |b.apartments| && (if persons > 1.0 then b.apartments[i].kind == Studio else true)
  }

  /** The building has a Studio apartment. */
  predicate HasStudio(b: Listing)
  {
    exists u :: u in b.apartments && u.kind == Studio
  }

  /** A party of more than one needs a Studio; a single person needs any apartment at all. */
  lemma HasRoomForIff(b: Listing, persons: real)
    ensures HasRoomFor(b, persons) <==> if persons > 1.0 then HasStudio(b) else |b.apartments| > 0
  {
    if persons > 1.0 && HasStudio(b) {
      var u :| u in b.apartments && u.kind == Studio;
      var i :| 0 <= i < |b.apartments| && b.apartments[i] == u;
    }
    if persons > 1.0 && HasRoomFor(b, persons) {
      var i :| 0 <= i < |b.apartments| && b.apartments[i].kind == Studio;
      var u := b.apartments[i];
      assert u in b.apartments;
    }
    if persons <= 1.0 && |b.apartments| > 0 {
      var first := b.apartments[0];
      assert (if persons > 1.0 then first.kind == Studio else true);
    }
  }

  /** The availability filter's test: some apartment's calendar holds none of the given days. */
  predicate FreeOn(b: Listing, days: seq<int>)
  {
    exists i :: 0 <= i < |b.apartments| && NoneOf(b.apartments[i], days)
  }

  /** `apartment.notAvailable.every(d => !days.includes(d))` */
  predicate NoneOf(u: Unit, days: seq<int>)
  {
    forall j :: 0 <= j < |u.notAvailable| ==> u.notAvailable[j] !in days
  }

  /** Some apartment of the building has no booked day between `d1` and `d2`. */
  predicate FreeBetween(b: Listing, d1: int, d2: int)
  {
    exists u :: u in b.apartments && FreeDuring(u, d1, d2)
  }

  /** The apartment has no booked day between `d1` and `d2`. */
  predicate FreeDuring(u: Unit, d1: int, d2: int)
  {
    forall d :: d in u.notAvailable ==> d < d1 || d2 < d
  }

  /** Over the expanded range, the availability test asks for an apartment free for the whole stay. */
  lemma FreeOnRange(b: Listing, days: seq<int>, d1: int, d2: int)
    requires forall d :: d in days <==> d1 <= d <= d2
    ensures FreeOn(b, days) <==> FreeBetween(b, d1, d2)
  {
    if FreeOn(b, days) {
      var i :| 0 <= i < |b.apartments| && NoneOf(b.apartments[i], days);
      var u := b.apartments[i];
      forall d | d in u.notAvailable
        ensures d < d1 || d2 < d
      {
        var j :| 0 <= j < |u.notAvailable| && u.notAvailable[j] == d;
        assert d !in days;
      }
      assert u in b.apartments && FreeDuring(u, d1, d2);
    }
    if FreeBetween(b, d1, d2) {
      var u :| u in b.apartments && FreeDuring(u, d1, d2);
      var i :| 0 <= i < |b.apartments| && b.apartments[i] == u;
      forall j | 0 <= j < |u.notAvailable|
        ensures u.notAvailable[j] !in days
      {
        var d := u.notAvailable[j];
        assert d in u.notAvailable;
      }
      assert NoneOf(b.apartments[i], days);
    }
  }

  /**
   * What a successful search keeps: buildings with at least the requested
   * number of apartments, with room for the party, and, when both ends of a
   * stay are given, with an apartment free for the whole stay.
   */
  predicate Wanted(b: Listing, person: Option<real>, apartment: Option<real>, d1: Option<int>, d2: Option<int>)
  {
    |b.apartments| as real >= (if apartment.Some? then apartment.value else 0.0)
    && (person.Some? ==> if person.value > 1.0 then HasStudio(b) else |b.apartments| > 0)
    && (d1.Some? && d2.Some? ==> FreeBetween(b, d1.value, d2.value))
  }

  /**
   * `getAllBuildings` over the buildings whose location matches the keyword,
   * in database order. `None` stands for a query parameter that is absent;
   * a present count is the number `Number(...)` parses, fractions included.
   */
  method GetAllBuildings(listed: seq<Listing>, person: Option<real>, apartment: Option<real>,
                         d1: Option<int>, d2: Option<int>)
    returns (r: Result<seq<Listing>, SearchError>)
    ensures r == Err(PersonRequired) <==> person.Some? && person.value < 1.0
    ensures r == Err(ApartmentRequired) <==>
      !(person.Some? && person.value < 1.0) && apartment.Some? && apartment.value < 1.0
    ensures r == Err(BadDateRange) <==>
      !(person.Some? && person.value < 1.0) && !(apartment.Some? && apartment.value < 1.0)
      && d1.Some? && d2.Some? && d1.value > d2.value
    ensures r.Ok? ==> forall b :: b in r.value <==> b in listed && Wanted(b, person, apartment, d1, d2)
    ensures r.Ok? ==> IsSubsequence(r.value, listed)
    ensures r.Ok? ==> forall b :: multiset(r.value)[b] == if Wanted(b, person, apartment, d1, d2) then multiset(listed)[b] else 0
  {
    if person.Some? && person.value < 1.0 {
      return Err(PersonRequired);
    }
    if apartment.Some? && apartment.value < 1.0 {
      return Err(ApartmentRequired);
    }
    var days: seq<int> := [];
    if d1.Some? && d2.Some? {
      if d1.value > d2.value {
        return Err(BadDateRange);
      }
      days := ExpandRange(d1.value, d2.value);
    }

    var least := if apartment.Some? then apartment.value else 0.0;
    var large := (b: Listing) => |b.apartments| as real >= least;
    var buildings := Filter(listed, large);
    ghost var test: Listing -> bool := large;
    assert Thins(buildings, listed, test);

    if person.Some? {
      var persons := person.value;
      var room := (b: Listing) => HasRoomFor(b, persons);
      FilterThins(buildings, listed, test, room);
      buildings := Filter(buildings, room);
      ghost var before := test;
      test := (b: Listing) => before(b) && room(b);
    }

    if |days| > 0 {
      var stay := days;
      var free := (b: Listing) => FreeOn(b, stay);
      FilterThins(buildings, listed, test, free);
      buildings := Filter(buildings, free);
      ghost var before := test;
      test := (b: Listing) => before(b) && free(b);
    }

    forall b | b in listed
      ensures test(b) <==> Wanted(b, person, apartment, d1, d2)
    {
      if person.Some? {
        HasRoomForIff(b, person.value);
      }
      if d1.Some? && d2.Some? {
        FreeOnRange(b, days, d1.value, d2.value);
      }
    }
    forall b
      ensures multiset(buildings)[b] == if Wanted(b, person, apartment, d1, d2) then multiset(listed)[b] else 0
    {
      if b !in listed {
        assert multiset(listed)[b] == 0;
      }
    }
    r := Ok(buildings);
  }
}
