/** Generic facts about sequences: order-preserving subsequences and `Array.prototype.filter`. */
module Sequences {

  /** `r` can be obtained from `s` by deleting elements, keeping the order of the rest. */
  predicate IsSubsequence<T(==)>(r: seq<T>, s: seq<T>)
    decreases |s|
  {
    if s == [] then r == []
    else IsSubsequence(r, s[1..]) || (r != [] && r[0] == s[0] && IsSubsequence(r[1..], s[1..]))
  }

  /** Deleting elements twice is deleting elements once. */
  lemma {:induction false} SubsequenceTransitive<T>(a: seq<T>, b: seq<T>, c: seq<T>)
    requires IsSubsequence(a, b) && IsSubsequence(b, c)
    ensures IsSubsequence(a, c)
    decreases |c|
  {
    if c != [] {
      if IsSubsequence(b, c[1..]) {
        SubsequenceTransitive(a, b, c[1..]);
      } else if IsSubsequence(a, b[1..]) {
        SubsequenceTransitive(a, b[1..], c[1..]);
      } else {
        SubsequenceTransitive(a[1..], b[1..], c[1..]);
      }
    }
  }

  /** The elements of `s` that `keep` accepts, in their original order, as JavaScript's `filter`. */
  function Filter<T(==,!new)>(s: seq<T>, keep: T -> bool): (r: seq<T>)
    ensures forall x :: x in r <==> x in s && keep(x)
    ensures IsSubsequence(r, s)
    ensures forall x :: multiset(r)[x] == if keep(x) then multiset(s)[x] else 0
  {
    if s == [] then []
    else
      assert s == [s[0]] + s[1..];
      if keep(s[0]) then [s[0]] + Filter(s[1..], keep)
      else Filter(s[1..], keep)
  }

  /** `r` keeps, in order, exactly the copies of the elements of `s` that pass `test`. */
  ghost predicate Thins<T(!new)>(r: seq<T>, s: seq<T>, test: T -> bool)
  {
    IsSubsequence(r, s) && forall x :: multiset(r)[x] == if test(x) then multiset(s)[x] else 0
  }

  /** Filtering a thinned sequence again thins the original by both tests. */
  lemma FilterThins<T(!new)>(r: seq<T>, s: seq<T>, test: T -> bool, keep: T -> bool)
    requires Thins(r, s, test)
    ensures Thins(Filter(r, keep), s, x => test(x) && keep(x))
  {
    SubsequenceTransitive(Filter(r, keep), r, s);
  }
}
