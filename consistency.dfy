/**
 * The invariant that ties an apartment's calendar to its bookings: the
 * calendar holds no date twice and holds exactly the dates of the bookings
 * that are not complete, and no two such bookings share a date. Creating a
 * booking through `createBooking`'s checks, checking in and completing all
 * keep it.
 */
module CalendarConsistency {
  import opened Wrappers
  import opened Calendar
  import opened Bookings

  /** One booking of the apartment: its dates and its status. */
  datatype Claim = Claim(dates: seq<int>, status: Status)

  /** A booking that still blocks its dates. */
  predicate Holds(c: Claim)
  {
    c.status != Complete
  }

  /** The calendar reflects exactly the bookings that still hold their dates. */
  ghost predicate Consistent(notAvailable: seq<int>, claims: seq<Claim>)
  {
    !Repeats(notAvailable)
    && (forall d :: d in notAvailable <==> exists k :: 0 <= k < |claims| && Holds(claims[k]) && d in claims[k].dates)
    && (forall k, l, d :: 0 <= k < l < |claims| && Holds(claims[k]) && Holds(claims[l]) && d in claims[k].dates
                          ==> d !in claims[l].dates)
  }

  /** A request that passes the date checks, appended as a new booking, keeps the calendar consistent. */
  lemma CreateKeepsConsistent(notAvailable: seq<int>, claims: seq<Claim>, dates: seq<int>, today: int)
    requires Consistent(notAvailable, claims)
    requires ValidateDates(dates, today, notAvailable) == Pass
    ensures Consistent(notAvailable + dates, claims + [Claim(dates, Active)])
  {
    AppendKeepsDistinct(notAvailable, dates);
    var after := claims + [Claim(dates, Active)];
    forall d | d in notAvailable + dates
      ensures exists k :: 0 <= k < |after| && Holds(after[k]) && d in after[k].dates
    {
      if d in notAvailable {
        var k :| 0 <= k < |claims| && Holds(claims[k]) && d in claims[k].dates;
        assert after[k] == claims[k];
      } else {
        assert after[|claims|].dates == dates;
      }
    }
    forall d | exists k :: 0 <= k < |after| && Holds(after[k]) && d in after[k].dates
      ensures d in notAvailable + dates
    {
      var k :| 0 <= k < |after| && Holds(after[k]) && d in after[k].dates;
      if k < |claims| {
        assert claims[k] == after[k];
      }
    }
    forall k, l, d | 0 <= k < l < |after| && Holds(after[k]) && Holds(after[l]) && d in after[k].dates
      ensures d !in after[l].dates
    {
      assert after[k] == claims[k];
      if l == |claims| {
        assert d in notAvailable;
      } else {
        assert after[l] == claims[l];
      }
    }
  }

  /** Checking in a booking that still holds its dates keeps the calendar consistent. */
  lemma CheckInKeepsConsistent(notAvailable: seq<int>, claims: seq<Claim>, k: nat)
    requires Consistent(notAvailable, claims)
    requires k < |claims| && Transition(claims[k].status, "Checked") == Ok(Checked)
    ensures Consistent(notAvailable, claims[k := Claim(claims[k].dates, Checked)])
  {
    var after := claims[k := Claim(claims[k].dates, Checked)];
    assert forall i :: 0 <= i < |claims| ==> after[i].dates == claims[i].dates && (Holds(after[i]) <==> Holds(claims[i]));
  }

  /**
   * Completing a booking releases exactly its dates: the calendar stays
   * consistent and none of the booking's dates remains blocked.
   */
  lemma CompleteKeepsConsistent(notAvailable: seq<int>, claims: seq<Claim>, k: nat)
    requires Consistent(notAvailable, claims)
    requires k < |claims| && Transition(claims[k].status, "Complete") == Ok(Complete)
    ensures Consistent(Without(notAvailable, claims[k].dates), claims[k := Claim(claims[k].dates, Complete)])
    ensures forall d :: d in claims[k].dates ==> d !in Without(notAvailable, claims[k].dates)
  {
    var released := claims[k].dates;
    var cal := Without(notAvailable, released);
    var after := claims[k := Claim(released, Complete)];
    WithoutKeepsDistinct(notAvailable, released);
    forall d | d in cal
      ensures exists i :: 0 <= i < |after| && Holds(after[i]) && d in after[i].dates
    {
      var i :| 0 <= i < |claims| && Holds(claims[i]) && d in claims[i].dates;
      assert i != k;
      assert after[i] == claims[i];
    }
    forall d | exists i :: 0 <= i < |after| && Holds(after[i]) && d in after[i].dates
      ensures d in cal
    {
      var i :| 0 <= i < |after| && Holds(after[i]) && d in after[i].dates;
      assert i != k && after[i] == claims[i];
      assert d in notAvailable && d !in released;
    }
    forall i, l, d | 0 <= i < l < |after| && Holds(after[i]) && Holds(after[l]) && d in after[i].dates
      ensures d !in after[l].dates
    {
      assert after[i] == claims[i] && after[l] == claims[l];
    }
  }
}
