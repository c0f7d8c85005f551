/**
  The aggregate chart series (buildValueHistory in src/modules/overview/overview.private.ts): several
  snapshot series, each carried forward, summed per date.
 */
module ValueHistory {
  import opened Options
  import opened Snapshots
  import opened SnapshotStores

  type Series = seq<Point>

  predicate Ascending(s: Series) { forall i, j :: 0 <= i < j < |s| ==> s[i].day < s[j].day }

  predicate AllAscending(list: seq<Series>) { forall i :: 0 <= i < |list| ==> Ascending(list[i]) }

  /** The latest point on or before a day. */
  function Latest(s: Series, day: int): Option<Point> {
    if s == [] then None
    else if s[|s|-1].day <= day then Some(s[|s|-1])
    else Latest(s[..|s|-1], day)
  }

  function ValueAt(s: Series, day: int): real {
    match Latest(s, day) case Some(x) => x.value case None => 0.0
  }

  predicate EstimateAt(s: Series, day: int) { Latest(s, day).Some? && Latest(s, day).value.approx }

  function SumAt(list: seq<Series>, day: int): real {
    if list == [] then 0.0 else SumAt(list[..|list|-1], day) + ValueAt(list[|list|-1], day)
  }

  /** A date is an estimate when some series that contributes to it is at an estimate. */
  predicate AnyEstimate(list: seq<Series>, day: int) { exists i :: 0 <= i < |list| && EstimateAt(list[i], day) }

  /** To cents, halves up. */
  function Round(x: real): real { (x * 100.0 + 0.5).Floor as real / 100.0 }

  predicate HasDay(s: Series, day: int) { exists j :: 0 <= j < |s| && s[j].day == day }

  predicate OnSomeDate(list: seq<Series>, day: int) { exists i :: 0 <= i < |list| && HasDay(list[i], day) }

  ghost predicate IsDates(list: seq<Series>, dates: set<int>) { forall d :: d in dates <==> OnSomeDate(list, d) }

  function Later(dates: set<int>, day: int): set<int> { set d | d in dates && d > day }

  /** Among the last `days` dates; taking the last zero takes them all. */
  predicate KeptDay(dates: set<int>, days: nat, day: int) { day in dates && (days == 0 || |Later(dates, day)| < days) }

  /** The series is in the money by then. */
  ghost predicate FundedBy(list: seq<Series>, dates: set<int>, days: nat, day: int) {
    exists e :: KeptDay(dates, days, e) && e <= day && Round(SumAt(list, e)) > 0.0
  }

  /**
    What a chart series must be: ascending; on each kept date the rounded sum of every series' latest
    value; and exactly the kept dates from the first positive one on.
   */
  ghost predicate IsHistory(list: seq<Series>, days: nat, out: Series) {
    && Ascending(out)
    && (forall x :: x in out ==> x.value == Round(SumAt(list, x.day)) && (x.approx <==> AnyEstimate(list, x.day)))
    && exists dates :: IsDates(list, dates)
        && forall d :: HasDay(out, d) <==> KeptDay(dates, days, d) && FundedBy(list, dates, days, d)
  }

  // ---------------------------------------------------------------------------------------------
  // The loops
  // ---------------------------------------------------------------------------------------------

  lemma {:induction false} LatestFrom(s: Series, n: nat, day: int)
    requires Ascending(s) && n <= |s|
    requires n > 0 ==> s[n-1].day <= day
    requires n < |s| ==> s[n].day > day
    ensures Latest(s, day) == if n == 0 then None else Some(s[n-1])
    decreases |s|
  {
    if n < |s| {
      LatestFrom(s[..|s|-1], n, day);
    }
  }

  /** Walks one series up to the day and stops at the first later point. */
  method ScanSeries(s: Series, day: int) returns (v: real, contributed: bool, approx: bool)
    requires Ascending(s)
    ensures v == ValueAt(s, day) && (contributed && approx <==> EstimateAt(s, day))
  {
    v, contributed, approx := 0.0, false, false;
    var n := 0;
    while n < |s| && s[n].day <= day
      invariant 0 <= n <= |s|
      invariant contributed <==> n > 0
      invariant n > 0 ==> v == s[n-1].value && approx == s[n-1].approx && s[n-1].day <= day
      invariant n == 0 ==> v == 0.0
    {
      v, approx, contributed := s[n].value, s[n].approx, true;
      n := n + 1;
    }
    LatestFrom(s, n, day);
  }

  method PointOn(list: seq<Series>, day: int) returns (x: Point)
    requires AllAscending(list)
    ensures x == Point(day, Round(SumAt(list, day)), AnyEstimate(list, day))
  {
    var sum, approx := 0.0, false;
    var i := 0;
    while i < |list|
      invariant 0 <= i <= |list|
      invariant sum == SumAt(list[..i], day)
      invariant approx <==> exists k :: 0 <= k < i && EstimateAt(list[k], day)
    {
      var v, contributed, estimate := ScanSeries(list[i], day);
      assert list[..i+1][..i] == list[..i];
      sum := sum + v;
      if contributed && estimate {
        approx := true;
      }
      i := i + 1;
    }
    assert list[..i] == list;
    x := Point(day, Round(sum), approx);
  }

  method CollectDates(list: seq<Series>) returns (dates: set<int>)
    ensures IsDates(list, dates)
  {
    dates := {};
    var i := 0;
    while i < |list|
      invariant 0 <= i <= |list|
      invariant forall d :: d in dates <==> exists k :: 0 <= k < i && HasDay(list[k], d)
    {
      var s, j := list[i], 0;
      ghost var earlier := dates;
      while j < |s|
        invariant 0 <= j <= |s|
        invariant forall d :: d in dates <==> d in earlier || exists k :: 0 <= k < j && s[k].day == d
      {
        dates := dates + {s[j].day};
        j := j + 1;
      }
      assert forall d :: HasDay(s, d) <==> exists k :: 0 <= k < j && s[k].day == d;
      i := i + 1;
    }
  }

  lemma {:induction false} IncreasingCount(ds: seq<int>)
    requires Increasing(ds)
    ensures |set d | d in ds| == |ds|
  {
    if ds != [] {
      IncreasingCount(ds[1..]);
      assert (set d | d in ds) == (set d | d in ds[1..]) + {ds[0]};
      assert ds[0] !in ds[1..];
    }
  }

  /** The last entries of the sorted dates are the kept days. */
  lemma SliceIsKept(dates: set<int>, sorted: seq<int>, days: nat, from: nat, i: nat)
    requires Increasing(sorted) && i < |sorted| && forall d :: d in sorted <==> d in dates
    requires from == if days == 0 || days >= |sorted| then 0 else |sorted| - days
    ensures KeptDay(dates, days, sorted[i]) <==> i >= from
  {
    var later := sorted[i+1..];
    IncreasingCount(later);
    assert Later(dates, sorted[i]) == set d | d in later by {
      forall d ensures d in Later(dates, sorted[i]) <==> d in later {
        if d in Later(dates, sorted[i]) {
          var k :| 0 <= k < |sorted| && sorted[k] == d;
          assert k > i;
          assert later[k - i - 1] == d;
        }
      }
    }
  }

  /** The kept dates in order. */
  ghost predicate IsKept(dates: set<int>, days: nat, kept: seq<int>) {
    Increasing(kept) && forall d :: d in kept <==> KeptDay(dates, days, d)
  }

  method KeepDates(dates: set<int>, days: nat) returns (kept: seq<int>)
    ensures IsKept(dates, days, kept)
  {
    hide KeptDay;
    var sorted := SortDays(dates);
    var from := if days == 0 || days >= |sorted| then 0 else |sorted| - days;
    kept := sorted[from..];
    forall d ensures d in kept <==> KeptDay(dates, days, d) {
      if d in dates {
        var i :| 0 <= i < |sorted| && sorted[i] == d;
        SliceIsKept(dates, sorted, days, from, i);
        assert i >= from ==> kept[i - from] == d;
      } else {
        NotKept(dates, days, d);
      }
    }
  }

  lemma NotKept(dates: set<int>, days: nat, d: int)
    requires d !in dates
    ensures !KeptDay(dates, days, d)
  {
  }

  method BuildPoints(list: seq<Series>, kept: seq<int>) returns (points: Series)
    requires AllAscending(list)
    ensures |points| == |kept|
    ensures forall i :: 0 <= i < |kept| ==> points[i] == Point(kept[i], Round(SumAt(list, kept[i])), AnyEstimate(list, kept[i]))
  {
    points := [];
    var i := 0;
    while i < |kept|
      invariant 0 <= i <= |kept| && |points| == i
      invariant forall k :: 0 <= k < i ==> points[k] == Point(kept[k], Round(SumAt(list, kept[k])), AnyEstimate(list, kept[k]))
    {
      var x := PointOn(list, kept[i]);
      points := points + [x];
      i := i + 1;
    }
  }

  method BuildValueHistory(list: seq<Series>, days: nat) returns (out: Series)
    requires AllAscending(list)
    ensures IsHistory(list, days, out)
  {
    hide KeptDay, Round, SumAt, AnyEstimate, OnSomeDate, FundedBy;
    var dates := CollectDates(list);
    var kept := KeepDates(dates, days);
    var points := BuildPoints(list, kept);
    var first := 0;
    while first < |points| && points[first].value <= 0.0
      invariant 0 <= first <= |points|
      invariant forall k :: 0 <= k < first ==> points[k].value <= 0.0
    {
      first := first + 1;
    }
    out := points[first..];
    forall d ensures HasDay(out, d) <==> KeptDay(dates, days, d) && FundedBy(list, dates, days, d) {
      Trimmed(list, dates, days, kept, first, out, d);
    }
  }

  lemma Trimmed(list: seq<Series>, dates: set<int>, days: nat, kept: seq<int>, first: nat, out: Series, d: int)
    requires IsKept(dates, days, kept) && first <= |kept| && |out| == |kept| - first
    requires forall k :: 0 <= k < |out| ==> out[k].day == kept[first + k]
    requires forall k :: 0 <= k < first ==> Round(SumAt(list, kept[k])) <= 0.0
    requires first < |kept| ==> Round(SumAt(list, kept[first])) > 0.0
    ensures HasDay(out, d) <==> KeptDay(dates, days, d) && FundedBy(list, dates, days, d)
  {
    hide KeptDay, Round, SumAt;
    assert KeptDay(dates, days, d) <==> d in kept;
    if d in kept {
      var i :| 0 <= i < |kept| && kept[i] == d;
      if i >= first {
        assert out[i - first].day == d;
        assert kept[first] in kept;
      } else {
        forall e | KeptDay(dates, days, e) && e <= d ensures Round(SumAt(list, e)) <= 0.0 {
          var k :| 0 <= k < |kept| && kept[k] == e;
        }
        forall k | 0 <= k < |out| ensures out[k].day != d {
        }
      }
    } else {
      forall k | 0 <= k < |out| ensures out[k].day != d {
        assert kept[first + k] in kept;
      }
    }
  }

  // ---------------------------------------------------------------------------------------------
  // What the chart guarantees
  // ---------------------------------------------------------------------------------------------

  /** The requirements leave no freedom: there is one chart for the input. */
  lemma HistoryIsUnique(list: seq<Series>, days: nat, a: Series, b: Series)
    requires IsHistory(list, days, a) && IsHistory(list, days, b)
    ensures a == b
  {
    hide KeptDay, Round, SumAt, AnyEstimate, OnSomeDate, FundedBy;
    SameDates(list, days, a, b);
    SameSeries(a, b);
  }

  lemma SameDates(list: seq<Series>, days: nat, a: Series, b: Series)
    requires IsHistory(list, days, a) && IsHistory(list, days, b)
    ensures forall d :: HasDay(a, d) <==> HasDay(b, d)
    ensures forall x, y :: x in a && y in b && x.day == y.day ==> x == y
  {
    hide KeptDay, Round, SumAt, AnyEstimate, OnSomeDate, FundedBy;
    var m :| IsDates(list, m) && forall d :: HasDay(a, d) <==> KeptDay(m, days, d) && FundedBy(list, m, days, d);
    var n :| IsDates(list, n) && forall d :: HasDay(b, d) <==> KeptDay(n, days, d) && FundedBy(list, n, days, d);
    forall d ensures d in m <==> d in n {
    }
    assert m == n;
  }

  lemma {:induction false} SameSeries(a: Series, b: Series)
    requires Ascending(a) && Ascending(b)
    requires forall d :: HasDay(a, d) <==> HasDay(b, d)
    requires forall x, y :: x in a && y in b && x.day == y.day ==> x == y
    ensures a == b
    decreases |a|
  {
    hide HasDay;
    FirstDay(a);
    FirstDay(b);
    if a != [] {
      SameHead(a, b);
      assert a[0] == b[0];
      TailDays(a);
      TailDays(b);
      SameSeries(a[1..], b[1..]);
      assert a == [a[0]] + a[1..] && b == [b[0]] + b[1..];
    }
  }

  lemma FirstDay(a: Series)
    requires Ascending(a)
    ensures a != [] ==> HasDay(a, a[0].day)
    ensures a == [] ==> forall d :: !HasDay(a, d)
  {
  }

  lemma SameHead(a: Series, b: Series)
    requires Ascending(a) && Ascending(b) && a != []
    requires forall d :: HasDay(a, d) <==> HasDay(b, d)
    ensures b != [] && a[0].day == b[0].day
  {
    assert HasDay(a, a[0].day);
    var j :| 0 <= j < |b| && b[j].day == a[0].day;
    assert HasDay(b, b[0].day);
    var i :| 0 <= i < |a| && a[i].day == b[0].day;
  }

  lemma TailDays(a: Series)
    requires Ascending(a) && a != []
    ensures forall d :: HasDay(a[1..], d) <==> HasDay(a, d) && d != a[0].day
  {
    forall d | HasDay(a, d) && d != a[0].day ensures HasDay(a[1..], d) {
      var j :| 0 <= j < |a| && a[j].day == d;
      assert a[1..][j-1].day == d;
    }
  }

  predicate NonNegative(s: Series) { forall i :: 0 <= i < |s| ==> s[i].value >= 0.0 }

  lemma {:induction false} LatestIsNonNegative(s: Series, day: int)
    requires NonNegative(s)
    ensures ValueAt(s, day) >= 0.0
  {
    if s != [] {
      LatestIsNonNegative(s[..|s|-1], day);
    }
  }

  lemma RoundGrows(x: real, y: real)
    requires x <= y
    ensures Round(x) <= Round(y)
  {
    var a, b := (x * 100.0 + 0.5).Floor, (y * 100.0 + 0.5).Floor;
    assert a <= b;
    assert (b - a) as real / 100.0 >= 0.0;
  }

  /** A further portfolio never lowers the chart on a date both charts show, nor clears an estimate. */
  lemma AddingSeriesRaises(list: seq<Series>, s: Series, days: nat, out: Series, more: Series, x: Point, y: Point)
    requires NonNegative(s) && IsHistory(list, days, out) && IsHistory(list + [s], days, more)
    requires x in out && y in more && x.day == y.day
    ensures x.value <= y.value && (x.approx ==> y.approx)
  {
    hide Round, Latest, KeptDay, FundedBy, OnSomeDate;
    var all := list + [s];
    assert all[..|all|-1] == list;
    LatestIsNonNegative(s, x.day);
    RoundGrows(SumAt(list, x.day), SumAt(all, x.day));
    if AnyEstimate(list, x.day) {
      var i :| 0 <= i < |list| && EstimateAt(list[i], x.day);
      assert all[i] == list[i];
    }
  }
}
