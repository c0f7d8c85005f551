/** The median of a list of prices, and why a majority decides it. */
module Medians {

  function Insert(x: real, xs: seq<real>): seq<real> {
    if xs == [] || x <= xs[0] then [x] + xs else [xs[0]] + Insert(x, xs[1..])
  }

  function Sorted(xs: seq<real>): seq<real> {
    if xs == [] then [] else Insert(xs[0], Sorted(xs[1..]))
  }

  ghost predicate Ascending(xs: seq<real>) {
    forall i, j :: 0 <= i < j < |xs| ==> xs[i] <= xs[j]
  }

  lemma {:induction false} InsertAscends(x: real, xs: seq<real>)
    requires Ascending(xs)
    ensures Ascending(Insert(x, xs)) && forall y :: y in Insert(x, xs) ==> y == x || y in xs
  {
    if xs != [] && x > xs[0] {
      InsertAscends(x, xs[1..]);
      var rest := Insert(x, xs[1..]);
      assert forall i :: 0 <= i < |rest| ==> rest[i] in rest;
      assert forall y :: y in rest ==> xs[0] <= y;
    }
  }

  lemma {:induction false} InsertPermutes(x: real, xs: seq<real>)
    ensures multiset(Insert(x, xs)) == multiset{x} + multiset(xs)
  {
    if xs != [] && x > xs[0] {
      InsertPermutes(x, xs[1..]);
      assert xs == [xs[0]] + xs[1..];
    }
  }

  lemma {:induction false} SortedAscends(xs: seq<real>)
    ensures Ascending(Sorted(xs)) && multiset(Sorted(xs)) == multiset(xs) && |Sorted(xs)| == |xs|
  {
    if xs != [] {
      SortedAscends(xs[1..]);
      InsertAscends(xs[0], Sorted(xs[1..]));
      InsertPermutes(xs[0], Sorted(xs[1..]));
      assert xs == [xs[0]] + xs[1..];
      assert |Sorted(xs)| == |multiset(Sorted(xs))| == |multiset(xs)| == |xs|;
    }
  }

  /** The middle price, or the mean of the two middle ones. */
  function Median(xs: seq<real>): real
    requires xs != []
  {
    SortedAscends(xs);
    var s, mid := Sorted(xs), |xs| / 2;
    if |xs| % 2 == 1 then s[mid] else (s[mid-1] + s[mid]) / 2.0
  }

  /** How many prices lie in [p, q]. */
  function CountWithin(xs: seq<real>, p: real, q: real): nat {
    if xs == [] then 0 else (if p <= xs[0] <= q then 1 else 0) + CountWithin(xs[1..], p, q)
  }

  lemma {:induction false} CountConcat(xs: seq<real>, ys: seq<real>, p: real, q: real)
    ensures CountWithin(xs + ys, p, q) == CountWithin(xs, p, q) + CountWithin(ys, p, q)
  {
    if xs == [] {
      assert xs + ys == ys;
    } else {
      assert (xs + ys)[1..] == xs[1..] + ys;
      CountConcat(xs[1..], ys, p, q);
    }
  }

  lemma {:induction false} CountInsert(x: real, xs: seq<real>, p: real, q: real)
    ensures CountWithin(Insert(x, xs), p, q) == CountWithin([x], p, q) + CountWithin(xs, p, q)
  {
    if xs == [] || x <= xs[0] {
      CountConcat([x], xs, p, q);
    } else {
      CountInsert(x, xs[1..], p, q);
      assert Insert(x, xs)[1..] == Insert(x, xs[1..]);
    }
  }

  lemma {:induction false} CountSorted(xs: seq<real>, p: real, q: real)
    ensures CountWithin(Sorted(xs), p, q) == CountWithin(xs, p, q)
  {
    if xs != [] {
      CountSorted(xs[1..], p, q);
      CountInsert(xs[0], Sorted(xs[1..]), p, q);
    }
  }

  lemma {:induction false} CountAtMost(xs: seq<real>, p: real, q: real)
    ensures CountWithin(xs, p, q) <= |xs|
    ensures (forall i :: 0 <= i < |xs| ==> !(p <= xs[i] <= q)) ==> CountWithin(xs, p, q) == 0
  {
    if xs != [] {
      CountAtMost(xs[1..], p, q);
    }
  }

  lemma CountSplit(s: seq<real>, n: nat, p: real, q: real)
    requires n <= |s|
    ensures CountWithin(s, p, q) == CountWithin(s[..n], p, q) + CountWithin(s[n..], p, q)
  {
    CountConcat(s[..n], s[n..], p, q);
    assert s == s[..n] + s[n..];
  }

  /** An entry below the range keeps everything up to it out ... */
  lemma BelowBounds(s: seq<real>, i: nat, p: real, q: real)
    requires Ascending(s) && i < |s| && s[i] < p
    ensures CountWithin(s, p, q) <= |s| - i - 1
  {
    hide CountWithin;
    CountSplit(s, i + 1, p, q);
    var low := s[..i+1];
    CountAtMost(low, p, q);
    assert forall k :: 0 <= k < |low| ==> low[k] <= s[i];
    CountAtMost(s[i+1..], p, q);
  }

  /** ... and one above, everything from it on. */
  lemma AboveBounds(s: seq<real>, i: nat, p: real, q: real)
    requires Ascending(s) && i < |s| && s[i] > q
    ensures CountWithin(s, p, q) <= i
  {
    hide CountWithin;
    CountSplit(s, i, p, q);
    CountAtMost(s[..i], p, q);
    var high := s[i..];
    CountAtMost(high, p, q);
    assert forall k :: 0 <= k < |high| ==> high[k] >= s[i];
  }

  lemma OutsideBounds(s: seq<real>, i: nat, p: real, q: real)
    requires Ascending(s) && i < |s|
    ensures s[i] < p ==> CountWithin(s, p, q) <= |s| - i - 1
    ensures s[i] > q ==> CountWithin(s, p, q) <= i
  {
    hide CountWithin, Ascending;
    if s[i] < p {
      BelowBounds(s, i, p, q);
    }
    if s[i] > q {
      AboveBounds(s, i, p, q);
    }
  }

  /** When more than half of the prices lie in [p, q], so does the median. */
  lemma MajorityHoldsMedian(xs: seq<real>, p: real, q: real)
    requires 2 * CountWithin(xs, p, q) > |xs|
    ensures p <= Median(xs) <= q
  {
    hide CountWithin, Ascending, Sorted;
    SortedAscends(xs);
    CountSorted(xs, p, q);
    CountAtMost(xs, p, q);
    var s, mid := Sorted(xs), |xs| / 2;
    OutsideBounds(s, mid, p, q);
    if |xs| % 2 == 0 {
      OutsideBounds(s, mid - 1, p, q);
    }
  }
}
