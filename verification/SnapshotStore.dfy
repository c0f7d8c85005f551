/** The writers of the snapshot table as they run, loop by loop. */
module SnapshotStores {
  import opened Options
  import opened Sets
  import opened Snapshots

  // ---------------------------------------------------------------------------------------------
  // The value history of a connected wallet
  // ---------------------------------------------------------------------------------------------

  /** A dated value as a provider reports it. */
  datatype Dated = Dated(day: int, value: real)

  type Days = map<int, Snap>

  /** Later entries overwrite earlier ones. */
  function Overlay(m: Days, xs: seq<Dated>, approx: bool): Days {
    if xs == [] then m
    else Overlay(m, xs[..|xs|-1], approx)[xs[|xs|-1].day := Snap(xs[|xs|-1].value, approx)]
  }

  /** Sampled estimates, overwritten by priced days, overwritten by today's own value. */
  function ByDate(tail: seq<Dated>, priced: seq<Dated>, today: int, current: real): Days {
    Overlay(Overlay(map[], tail, true), priced, false)[today := Snap(current, false)]
  }

  predicate Mentions(xs: seq<Dated>, day: int) { exists i :: 0 <= i < |xs| && xs[i].day == day }

  lemma {:induction false} OverlayAt(m: Days, xs: seq<Dated>, approx: bool, day: int)
    ensures day in Overlay(m, xs, approx) <==> day in m || Mentions(xs, day)
    ensures Mentions(xs, day) ==> Overlay(m, xs, approx)[day].approx == approx
    ensures !Mentions(xs, day) && day in m ==> Overlay(m, xs, approx)[day] == m[day]
  {
    if xs != [] {
      var rest := xs[..|xs|-1];
      OverlayAt(m, rest, approx, day);
      assert forall i :: 0 <= i < |rest| ==> rest[i] == xs[i];
      if Mentions(xs, day) && xs[|xs|-1].day != day {
        var i :| 0 <= i < |xs| && xs[i].day == day;
        assert rest[i].day == day;
      }
    }
  }

  /** A day is an estimate exactly when only the samples know it. */
  lemma EstimateIffOnlySampled(tail: seq<Dated>, priced: seq<Dated>, today: int, current: real, day: int)
    ensures var m := ByDate(tail, priced, today, current);
            && (day in m <==> day == today || Mentions(priced, day) || Mentions(tail, day))
            && (day in m ==> (m[day].approx <==> day != today && !Mentions(priced, day)))
  {
    OverlayAt(map[], tail, true, day);
    OverlayAt(Overlay(map[], tail, true), priced, false, day);
  }

  predicate Increasing(ds: seq<int>) { forall i, j :: 0 <= i < j < |ds| ==> ds[i] < ds[j] }

  function Upto(ds: seq<int>, d: int): nat {
    if ds == [] || d <= ds[0] then 0 else 1 + Upto(ds[1..], d)
  }

  lemma {:induction false} UptoSplits(ds: seq<int>, d: int)
    requires Increasing(ds)
    ensures Upto(ds, d) <= |ds|
    ensures forall i :: 0 <= i < |ds| ==> (i < Upto(ds, d) <==> ds[i] < d)
  {
    if ds != [] && d > ds[0] {
      UptoSplits(ds[1..], d);
    }
  }

  function InsertDay(ds: seq<int>, d: int): seq<int> {
    UptoBounded(ds, d);
    ds[..Upto(ds, d)] + [d] + ds[Upto(ds, d)..]
  }

  lemma {:induction false} UptoBounded(ds: seq<int>, d: int)
    ensures Upto(ds, d) <= |ds|
  {
    if ds != [] && d > ds[0] {
      UptoBounded(ds[1..], d);
    }
  }

  lemma InsertDayIncreases(ds: seq<int>, d: int)
    requires Increasing(ds) && d !in ds
    ensures Increasing(InsertDay(ds, d))
  {
    UptoSplits(ds, d);
    assert forall i :: 0 <= i < |ds| ==> ds[i] in ds;
  }

  lemma InsertDayMembers(ds: seq<int>, d: int, x: int)
    ensures x in InsertDay(ds, d) <==> x == d || x in ds
  {
    UptoBounded(ds, d);
    assert ds == ds[..Upto(ds, d)] + ds[Upto(ds, d)..];
  }

  method SortDays(days: set<int>) returns (r: seq<int>)
    ensures Increasing(r) && forall d :: d in r <==> d in days
  {
    hide InsertDay, Increasing;
    r := [];
    var left := days;
    EmptyIncreases();
    while left != {}
      invariant Increasing(r) && left <= days
      invariant forall d :: d in r <==> d in days && d !in left
      decreases left
    {
      SomeNumber(left);
      var d :| d in left;
      InsertDayIncreases(r, d);
      forall x ensures x in InsertDay(r, d) <==> x == d || x in r {
        InsertDayMembers(r, d, x);
      }
      r := InsertDay(r, d);
      left := left - {d};
    }
  }

  lemma EmptyIncreases()
    ensures Increasing([])
  {
  }

  ghost predicate PositiveBy(m: Days, day: int) { exists e :: e in m && e <= day && m[e].value > 0.0 }

  ghost predicate InSeries(series: seq<Point>, day: int) { exists i :: 0 <= i < |series| && series[i].day == day }

  /**
    The dated values up to today in ascending order, from the first positive one on; zeros after it
    stay.
   */
  method BuildConnectedHistory(tail: seq<Dated>, priced: seq<Dated>, today: int, current: real) returns (series: seq<Point>)
    ensures forall i, j :: 0 <= i < j < |series| ==> series[i].day < series[j].day
    ensures var m := ByDate(tail, priced, today, current);
            && (forall x :: x in series ==> x.day <= today && x.day in m && m[x.day] == Snap(x.value, x.approx))
            && forall d :: d in m && d <= today ==> (InSeries(series, d) <==> PositiveBy(m, d))
  {
    var byDate: Days := map[];
    var i := 0;
    while i < |tail|
      invariant 0 <= i <= |tail| && byDate == Overlay(map[], tail[..i], true)
    {
      assert tail[..i+1][..i] == tail[..i];
      byDate := byDate[tail[i].day := Snap(tail[i].value, true)];
      i := i + 1;
    }
    assert tail[..i] == tail;
    ghost var sampled := byDate;
    i := 0;
    while i < |priced|
      invariant 0 <= i <= |priced| && byDate == Overlay(sampled, priced[..i], false)
    {
      assert priced[..i+1][..i] == priced[..i];
      byDate := byDate[priced[i].day := Snap(priced[i].value, false)];
      i := i + 1;
    }
    assert priced[..i] == priced;
    byDate := byDate[today := Snap(current, false)];
    var days := SortDays(set d | d in byDate && d <= today);
    series := TrimToPositive(byDate, days, today);
  }

  function PointOf(m: Days, day: int): Point
    requires day in m
  {
    Point(day, m[day].value, m[day].approx)
  }

  method TrimToPositive(m: Days, days: seq<int>, today: int) returns (series: seq<Point>)
    requires Increasing(days) && forall d :: d in days <==> d in m && d <= today
    ensures forall i, j :: 0 <= i < j < |series| ==> series[i].day < series[j].day
    ensures forall x :: x in series ==> x.day <= today && x.day in m && m[x.day] == Snap(x.value, x.approx)
    ensures forall d :: d in m && d <= today ==> (InSeries(series, d) <==> PositiveBy(m, d))
  {
    hide InSeries, PositiveBy;
    assert forall i :: 0 <= i < |days| ==> days[i] in days;
    var first := 0;
    while first < |days| && m[days[first]].value <= 0.0
      invariant 0 <= first <= |days|
      invariant forall i :: 0 <= i < first ==> m[days[i]].value <= 0.0
    {
      first := first + 1;
    }
    series := [];
    var i := first;
    while i < |days|
      invariant first <= i <= |days| && |series| == i - first
      invariant forall j :: 0 <= j < |series| ==> days[first + j] in m && series[j] == PointOf(m, days[first + j])
    {
      series := series + [PointOf(m, days[i])];
      i := i + 1;
    }
    forall d | d in m && d <= today ensures InSeries(series, d) <==> PositiveBy(m, d) {
      TrimmedAt(m, days, first, d, series);
    }
  }

  /** The series starts at the first positive day, so it has the days that some positive day precedes. */
  lemma TrimmedAt(m: Days, days: seq<int>, first: nat, d: int, series: seq<Point>)
    requires Increasing(days) && first <= |days| && d in days
    requires (forall e :: e in m && e <= d ==> e in days) && forall e :: e in days ==> e in m
    requires forall i :: 0 <= i < first ==> m[days[i]].value <= 0.0
    requires first < |days| ==> m[days[first]].value > 0.0
    requires |series| == |days| - first && forall i :: 0 <= i < |series| ==> series[i].day == days[first + i]
    ensures InSeries(series, d) <==> PositiveBy(m, d)
  {
    var k :| 0 <= k < |days| && days[k] == d;
    if k >= first {
      assert series[k - first].day == d;
      assert days[first] <= d && days[first] in m;
    } else {
      forall e | e in m && e <= d ensures m[e].value <= 0.0 {
        var i :| 0 <= i < |days| && days[i] == e;
        assert i > k ==> days[i] > days[k];
      }
      forall i | 0 <= i < |series| ensures series[i].day != d {
        assert days[k] < days[first + i];
      }
    }
  }

  // ---------------------------------------------------------------------------------------------
  // The table
  // ---------------------------------------------------------------------------------------------

  const CHUNK: nat := 500

  lemma {:induction false} EstimateAllConcat(t: Table, p: int, xs: seq<Point>, ys: seq<Point>)
    ensures EstimateAll(t, p, xs + ys) == EstimateAll(EstimateAll(t, p, xs), p, ys)
    decreases xs
  {
    if xs == [] {
      assert xs + ys == ys;
    } else {
      assert (xs + ys)[1..] == xs[1..] + ys;
      EstimateAllConcat(Estimate(t, p, xs[0]), p, xs[1..], ys);
    }
  }

  /** One portfolio the daily job visits. */
  datatype Visit = Visit(p: int, user: int)

  function Jobs(visits: seq<Visit>, pro: int -> bool, derive: int -> Option<real>): seq<Job> {
    seq(|visits|, i requires 0 <= i < |visits| =>
        Job(visits[i].p, pro(visits[i].user), derive(visits[i].p).Some?, derive(visits[i].p).GetOr(0.0)))
  }

  /** How many visits satisfy `pro` and end in success, or in failure. */
  function Counted(jobs: seq<Job>, derived: bool): nat {
    if jobs == [] then 0
    else (if jobs[0].pro && jobs[0].derived == derived then 1 else 0) + Counted(jobs[1..], derived)
  }

  function Flipped(t: Table, t': Table): set<Key> { set k | k in t && k in t' && t'[k] != t[k] }

  class SnapshotStore {
    var rows: Table

    constructor ()
      ensures rows == map[]
    {
      rows := map[];
    }

    /** The daily job: a failing portfolio is counted and skipped, the others are written. */
    method RunSnapshotJob(today: int, visits: seq<Visit>, pro: int -> bool, derive: int -> Option<real>)
      returns (snapshotted: nat, failed: nat)
      modifies this
      ensures rows == Daily(old(rows), today, Jobs(visits, pro, derive))
      ensures snapshotted == Counted(Jobs(visits, pro, derive), true)
      ensures failed == Counted(Jobs(visits, pro, derive), false)
    {
      ghost var jobs := Jobs(visits, pro, derive);
      var planByUser: map<int, bool> := map[];
      snapshotted, failed := 0, 0;
      var i := 0;
      while i < |visits|
        invariant 0 <= i <= |visits|
        invariant forall u :: u in planByUser ==> planByUser[u] == pro(u)
        invariant Daily(rows, today, jobs[i..]) == Daily(old(rows), today, jobs)
        invariant snapshotted + Counted(jobs[i..], true) == Counted(jobs, true)
        invariant failed + Counted(jobs[i..], false) == Counted(jobs, false)
      {
        var v := visits[i];
        assert jobs[i..][1..] == jobs[i+1..];
        if v.user !in planByUser {
          planByUser := planByUser[v.user := pro(v.user)];
        }
        if planByUser[v.user] {
          var value := derive(v.p);
          if value.Some? {
            rows := rows[(v.p, today) := Snap(value.value, false)];
            snapshotted := snapshotted + 1;
          } else {
            failed := failed + 1;
          }
        }
        i := i + 1;
      }
    }

    /** INSERT .. ON CONFLICT DO UPDATE .. WHERE approx, in chunks. */
    method BulkUpsert(p: int, points: seq<Point>)
      modifies this
      ensures rows == EstimateAll(old(rows), p, points)
    {
      var start := 0;
      while start < |points|
        invariant 0 <= start <= |points|
        invariant EstimateAll(rows, p, points[start..]) == EstimateAll(old(rows), p, points)
      {
        var end := if start + CHUNK <= |points| then start + CHUNK else |points|;
        var chunk := points[start..end];
        assert points[start..] == chunk + points[end..];
        EstimateAllConcat(rows, p, chunk, points[end..]);
        rows := EstimateAll(rows, p, chunk);
        start := end;
      }
    }

    method BackfillConnected(p: int, today: int, series: seq<Point>)
      modifies this
      ensures rows == Backfilled(old(rows), p, today, series)
    {
      if series == [] {
        return;
      }
      BulkUpsert(p, Before(series, today));
      var todayPoint := PointAt(series, today);
      if todayPoint != [] {
        rows := rows[(p, today) := Snap(todayPoint[0].value, false)];
      }
    }

    method BackfillDemo(p: int, series: seq<Point>)
      modifies this
      ensures rows == Demo(old(rows), p, series)
    {
      BulkUpsert(p, Estimated(series));
    }

    /**
      The trailing-run scan over the portfolio's days, newest first, and the flags it flips; a dry run
      only counts them.
     */
    method ReclassifyConnected(p: int, dryRun: bool) returns (count: nat)
      modifies this
      ensures rows == if dryRun then old(rows) else Reclassified(old(rows), p)
      ensures count == |Flipped(old(rows), Reclassified(old(rows), p))|
    {
      ghost var days := DaysOf(rows, p);
      var sorted := SortDays(set k | k in rows && k.0 == p :: k.1);
      if sorted == [] {
        assert forall d :: d in days ==> d in sorted;
        assert forall k :: k in rows && k.0 == p ==> k.1 in days;
        assert Flipped(rows, Reclassified(rows, p)) == {};
        return 0;
      }
      var runEnd := TrailingRun(sorted);
      TrailingIn(sorted, days, runEnd);
      var start := sorted[runEnd];
      var older := set k | k in rows && k.0 == p && !rows[k].approx && k.1 < start;
      forall k | k in rows && k.0 == p ensures Gap(days, k.1) <==> k.1 < start {
        assert k.1 in days;
        GapIffBeforeRun(days, start, k.1);
      }
      assert older == Flipped(rows, Reclassified(rows, p));
      count := |older|;
      if !dryRun {
        rows := map k | k in rows :: if k in older then rows[k].(approx := true) else rows[k];
      }
    }
  }

  /** From index `i` on, the sorted days are one consecutive run, and the run does not go on below. */
  ghost predicate RunFrom(sorted: seq<int>, i: nat) {
    && i < |sorted| && (forall j :: i <= j < |sorted| ==> sorted[j] == sorted[i] + (j - i))
    && (i > 0 ==> sorted[i-1] < sorted[i] - 1)
  }

  /** Walks from the newest day while each is one day before the last. */
  method TrailingRun(sorted: seq<int>) returns (runEnd: nat)
    requires sorted != [] && Increasing(sorted)
    ensures RunFrom(sorted, runEnd)
  {
    runEnd := |sorted| - 1;
    while runEnd > 0 && sorted[runEnd] - sorted[runEnd-1] == 1
      invariant 0 <= runEnd < |sorted|
      invariant forall j :: runEnd <= j < |sorted| ==> sorted[j] == sorted[runEnd] + (j - runEnd)
    {
      runEnd := runEnd - 1;
    }
  }

  lemma TrailingIn(sorted: seq<int>, days: set<int>, i: nat)
    requires Increasing(sorted) && RunFrom(sorted, i) && forall d :: d in sorted <==> d in days
    ensures TrailingStart(days, sorted[i])
  {
    var start, newest := sorted[i], sorted[|sorted|-1];
    assert newest in days && newest == start + (|sorted| - 1 - i);
    forall d | d in days ensures d <= newest && d != start - 1 {
      var k :| 0 <= k < |sorted| && sorted[k] == d;
      assert k < i ==> sorted[k] <= sorted[i-1];
    }
    forall d | start <= d <= newest ensures d in days {
      assert sorted[i + (d - start)] == d;
    }
  }
}
