/**
 * An apartment's `notAvailable` calendar: the list of day numbers on which it
 * is booked, in the order the bookings appended them. The functions here are
 * the checks and the release that the booking controller applies to it.
 */
module Calendar {
  import opened Sequences

  /** The distinct dates of a request, as `new Set(dates)` collects them. */
  function Distinct(dates: seq<int>): set<int>
  {
    set d | d in dates
  }

  /** The source's duplicate test: the request is longer than its set of dates. */
  predicate HasDuplicate(dates: seq<int>)
  {
    |dates| != |Distinct(dates)|
  }

  /** Some date occurs at two different positions of `s`. */
  predicate Repeats(s: seq<int>)
  {
    exists i, j :: 0 <= i < j < |s| && s[i] == s[j]
  }

  /** A sequence is never shorter than its set of elements, and is longer exactly when a date repeats. */
  lemma {:induction false} DistinctCount(s: seq<int>)
    ensures |Distinct(s)| <= |s|
    ensures HasDuplicate(s) <==> Repeats(s)
  {
    if s != [] {
      var t := s[1..];
      DistinctCount(t);
      assert s == [s[0]] + t;
      assert Distinct(s) == {s[0]} + Distinct(t);
      if s[0] in t {
        var k :| 0 <= k < |t| && t[k] == s[0];
        assert s[0] == s[k + 1];
        assert Distinct(s) == Distinct(t);
      } else {
        RepeatsCons(s[0], t);
      }
    }
  }

  /** A date list headed by `x` repeats exactly when `x` recurs in the tail or the tail repeats. */
  lemma RepeatsCons(x: int, t: seq<int>)
    ensures Repeats([x] + t) <==> x in t || Repeats(t)
  {
    var s := [x] + t;
    if Repeats(t) {
      var i, j :| 0 <= i < j < |t| && t[i] == t[j];
      assert s[i + 1] == s[j + 1];
    }
    if x in t {
      var j :| 0 <= j < |t| && t[j] == x;
      assert s[0] == s[j + 1];
    }
    if Repeats(s) {
      var i, j :| 0 <= i < j < |s| && s[i] == s[j];
      if i == 0 {
        assert t[j - 1] == x;
      } else {
        assert t[i - 1] == t[j - 1];
      }
    }
  }

  /**
   * The source's conflict test: the calendar is non-empty and some requested
   * date is already in it. The emptiness guard never changes the answer.
   */
  predicate IsBooked(notAvailable: seq<int>, dates: seq<int>)
  {
    |notAvailable| > 0 && exists i :: 0 <= i < |dates| && dates[i] in notAvailable
  }

  /** The conflict test holds exactly when the request and the calendar share a date. */
  lemma IsBookedIff(notAvailable: seq<int>, dates: seq<int>)
    ensures IsBooked(notAvailable, dates) <==> exists d :: d in dates && d in notAvailable
  {
    if exists d :: d in dates && d in notAvailable {
      var d :| d in dates && d in notAvailable;
      var i :| 0 <= i < |dates| && dates[i] == d;
      assert notAvailable[0] in notAvailable;
    }
  }

  /**
   * The calendar after a booking releases `dates`: `notAvailable.filter(d => !dates.includes(d))`.
   * Every occurrence of a released date goes, everything else stays in order.
   */
  function Without(notAvailable: seq<int>, dates: seq<int>): (r: seq<int>)
    ensures forall d :: d in r <==> d in notAvailable && d !in dates
    ensures IsSubsequence(r, notAvailable)
  {
    if notAvailable == [] then []
    else if notAvailable[0] !in dates then [notAvailable[0]] + Without(notAvailable[1..], dates)
    else Without(notAvailable[1..], dates)
  }

  /** Releasing keeps the multiplicity of every date that is not released and drops the others. */
  lemma {:induction false} WithoutCount(notAvailable: seq<int>, dates: seq<int>, d: int)
    ensures multiset(Without(notAvailable, dates))[d] == if d in dates then 0 else multiset(notAvailable)[d]
  {
    if notAvailable != [] {
      WithoutCount(notAvailable[1..], dates, d);
      assert notAvailable == [notAvailable[0]] + notAvailable[1..];
    }
  }

  /** Releasing works block by block: the release of a concatenation is the concatenation of releases. */
  lemma {:induction false} WithoutAppend(a: seq<int>, b: seq<int>, dates: seq<int>)
    ensures Without(a + b, dates) == Without(a, dates) + Without(b, dates)
  {
    if a == [] {
      assert a + b == b;
    } else {
      WithoutAppend(a[1..], b, dates);
      assert (a + b)[0] == a[0];
      assert (a + b)[1..] == a[1..] + b;
    }
  }

  /** Releasing dates that are not in the calendar leaves it as it is. */
  lemma {:induction false} WithoutAbsent(notAvailable: seq<int>, dates: seq<int>)
    requires forall d :: d in dates ==> d !in notAvailable
    ensures Without(notAvailable, dates) == notAvailable
  {
    if notAvailable != [] {
      var first := notAvailable[0];
      assert first in notAvailable;
      assert first !in dates;
      WithoutAbsent(notAvailable[1..], dates);
      assert notAvailable == [notAvailable[0]] + notAvailable[1..];
    }
  }

  /** Releasing every date of the calendar empties it. */
  lemma {:induction false} WithoutAll(notAvailable: seq<int>, dates: seq<int>)
    requires forall d :: d in notAvailable ==> d in dates
    ensures Without(notAvailable, dates) == []
  {
    if notAvailable != [] {
      var first := notAvailable[0];
      assert first in notAvailable;
      assert first in dates;
      WithoutAll(notAvailable[1..], dates);
      assert Without(notAvailable, dates) == Without(notAvailable[1..], dates);
    }
  }

  /**
   * Releasing the dates a booking appended restores the calendar it found,
   * provided the booking passed the conflict check.
   */
  lemma ReleaseUndoesBlock(notAvailable: seq<int>, dates: seq<int>)
    requires !IsBooked(notAvailable, dates)
    ensures Without(notAvailable + dates, dates) == notAvailable
  {
    IsBookedIff(notAvailable, dates);
    WithoutAppend(notAvailable, dates, dates);
    WithoutAbsent(notAvailable, dates);
    WithoutAll(dates, dates);
  }

  /** Releasing dates from a calendar without repeats yields a calendar without repeats. */
  lemma {:induction false} WithoutKeepsDistinct(notAvailable: seq<int>, dates: seq<int>)
    requires !Repeats(notAvailable)
    ensures !Repeats(Without(notAvailable, dates))
  {
    if notAvailable != [] {
      var t := notAvailable[1..];
      assert notAvailable == [notAvailable[0]] + t;
      RepeatsCons(notAvailable[0], t);
      WithoutKeepsDistinct(t, dates);
      if notAvailable[0] !in dates {
        RepeatsCons(notAvailable[0], Without(t, dates));
      }
    }
  }

  /** Two lists without repeats and without a common date concatenate to a list without repeats. */
  lemma AppendKeepsDistinct(a: seq<int>, b: seq<int>)
    requires !Repeats(a) && !Repeats(b)
    requires forall d :: d in a ==> d !in b
    ensures !Repeats(a + b)
  {
    var s := a + b;
    forall i, j | 0 <= i < j < |s|
      ensures s[i] != s[j]
    {
      if j < |a| {
        assert s[i] == a[i] && s[j] == a[j];
      } else if i >= |a| {
        assert s[i] == b[i - |a|] && s[j] == b[j - |a|];
      } else {
        assert s[i] == a[i] && a[i] in a;
        assert s[j] == b[j - |a|] && b[j - |a|] in b;
      }
    }
  }
}
