/**
  The daily balance snapshots and everything that writes them: the daily job
  (src/jobs/snapshot.job.ts), the connected backfill (src/modules/wallet-data/sync.private.ts), the
  demo backfill (src/scripts/backfill-snapshots.ts) and the reclassification pass.
 */
module Snapshots {

  /** `approx` marks an estimate; days are whole numbers. */
  datatype Snap = Snap(value: real, approx: bool)

  type Key = (int, int)  // portfolio, day
  type Table = map<Key, Snap>

  datatype Point = Point(day: int, value: real, approx: bool)

  predicate DistinctDays(ps: seq<Point>) { forall i, j :: 0 <= i < j < |ps| ==> ps[i].day != ps[j].day }

  // ---------------------------------------------------------------------------------------------
  // The writers
  // ---------------------------------------------------------------------------------------------

  /** Insert, or overwrite unconditionally with an observed value. */
  function Observe(t: Table, p: int, day: int, value: real): Table { t[(p, day) := Snap(value, false)] }

  /** Insert, or overwrite only an estimate. */
  function Estimate(t: Table, p: int, x: Point): Table {
    if (p, x.day) in t && !t[(p, x.day)].approx then t else t[(p, x.day) := Snap(x.value, x.approx)]
  }

  function EstimateAll(t: Table, p: int, xs: seq<Point>): Table
    decreases xs
  {
    if xs == [] then t else EstimateAll(Estimate(t, p, xs[0]), p, xs[1..])
  }

  function Before(xs: seq<Point>, today: int): seq<Point> {
    if xs == [] then [] else (if xs[0].day < today then [xs[0]] else []) + Before(xs[1..], today)
  }

  /** The first point of a day, if any. */
  function PointAt(xs: seq<Point>, day: int): seq<Point> {
    if xs == [] then [] else if xs[0].day == day then [xs[0]] else PointAt(xs[1..], day)
  }

  /** The connected backfill: past days guarded, today's observed value always. */
  function Backfilled(t: Table, p: int, today: int, series: seq<Point>): Table {
    var past := EstimateAll(t, p, Before(series, today));
    var now := PointAt(series, today);
    if now == [] then past else Observe(past, p, today, now[0].value)
  }

  function Estimated(xs: seq<Point>): seq<Point> {
    if xs == [] then [] else [xs[0].(approx := true)] + Estimated(xs[1..])
  }

  /** The demo backfill: estimates only, today included. */
  function Demo(t: Table, p: int, series: seq<Point>): Table { EstimateAll(t, p, Estimated(series)) }

  /** One portfolio of the daily job: whether its owner is on Pro, and its value if deriving it worked. */
  datatype Job = Job(p: int, pro: bool, derived: bool, value: real)

  function Daily(t: Table, today: int, jobs: seq<Job>): Table
    decreases jobs
  {
    if jobs == [] then t
    else Daily(if jobs[0].pro && jobs[0].derived then Observe(t, jobs[0].p, today, jobs[0].value) else t, today, jobs[1..])
  }

  function DaysOf(t: Table, p: int): set<int> { set k | k in t && k.0 == p :: k.1 }

  /** The oldest day of the unbroken run of days that ends with the newest one. */
  ghost predicate TrailingStart(days: set<int>, start: int) {
    exists newest :: newest in days && start <= newest && (forall d :: d in days ==> d <= newest)
      && (forall d :: start <= d <= newest ==> d in days) && start - 1 !in days
  }

  /** A day without a row lies between this one and a later row. */
  ghost predicate Gap(days: set<int>, day: int) { exists d, e :: day < d < e && d !in days && e in days }

  /** Every row that a gap cuts off from the newest one becomes an estimate. */
  ghost function Reclassified(t: Table, p: int): Table {
    map k | k in t :: if k.0 == p && Gap(DaysOf(t, p), k.1) then t[k].(approx := true) else t[k]
  }

  /** These are the rows older than the trailing run. */
  lemma GapIffBeforeRun(days: set<int>, start: int, day: int)
    requires TrailingStart(days, start) && day in days
    ensures Gap(days, day) <==> day < start
  {
    var newest :| newest in days && start <= newest && (forall d :: d in days ==> d <= newest)
      && (forall d :: start <= d <= newest ==> d in days) && start - 1 !in days;
    if day < start {
      assert day < start - 1 < newest;
    }
  }

  // ---------------------------------------------------------------------------------------------
  // Observed values of past days are final
  // ---------------------------------------------------------------------------------------------

  datatype Write =
    | JobRun(jobs: seq<Job>)
    | ConnectedFull(p: int, series: seq<Point>)
    | ConnectedToday(p: int, value: real)
    | DemoRun(p: int, series: seq<Point>)
    | Reclassify(p: int)

  datatype Call = Call(today: int, write: Write)

  ghost function Apply(t: Table, c: Call): Table {
    match c.write
    case JobRun(jobs) => Daily(t, c.today, jobs)
    case ConnectedFull(p, series) => Backfilled(t, p, c.today, series)
    case ConnectedToday(p, value) => Observe(t, p, c.today, value)
    case DemoRun(p, series) => Demo(t, p, series)
    case Reclassify(p) => Reclassified(t, p)
  }

  ghost function Run(t: Table, cs: seq<Call>): Table
    decreases cs
  {
    if cs == [] then t else Run(Apply(t, cs[0]), cs[1..])
  }

  predicate Observed(t: Table, k: Key) { k in t && !t[k].approx }

  /** Observed rows before `today` stay as they are. */
  ghost predicate KeepsPast(t: Table, t': Table, today: int) {
    forall k: Key :: Observed(t, k) && k.1 < today ==> k in t' && t'[k] == t[k]
  }

  lemma {:induction false} EstimateAllKeeps(t: Table, p: int, xs: seq<Point>, k: Key)
    requires Observed(t, k)
    ensures k in EstimateAll(t, p, xs) && EstimateAll(t, p, xs)[k] == t[k]
    decreases xs
  {
    if xs != [] {
      EstimateAllKeeps(Estimate(t, p, xs[0]), p, xs[1..], k);
    }
  }

  lemma {:induction false} DailyKeeps(t: Table, today: int, jobs: seq<Job>, k: Key)
    requires k in t && k.1 != today
    ensures k in Daily(t, today, jobs) && Daily(t, today, jobs)[k] == t[k]
    decreases jobs
  {
    if jobs != [] {
      DailyKeeps(if jobs[0].pro && jobs[0].derived then Observe(t, jobs[0].p, today, jobs[0].value) else t, today, jobs[1..], k);
    }
  }

  lemma ApplyKeepsPast(t: Table, c: Call)
    requires !c.write.Reclassify?
    ensures KeepsPast(t, Apply(t, c), c.today)
  {
    forall k: Key | Observed(t, k) && k.1 < c.today ensures k in Apply(t, c) && Apply(t, c)[k] == t[k] {
      match c.write
      case JobRun(jobs) => DailyKeeps(t, c.today, jobs, k);
      case ConnectedFull(p, series) => EstimateAllKeeps(t, p, Before(series, c.today), k);
      case ConnectedToday(p, value) =>
      case DemoRun(p, series) => EstimateAllKeeps(t, p, Estimated(series), k);
    }
  }

  /** The clock does not go back, and no pass reclassifies. */
  predicate WritersOnly(cs: seq<Call>, since: int) {
    forall i :: 0 <= i < |cs| ==> since <= cs[i].today && !cs[i].write.Reclassify?
  }

  /** Over any run of the three writers, an observed row of a past day never changes value or flag. */
  lemma {:induction false} PastIsFinal(t: Table, cs: seq<Call>, since: int)
    requires WritersOnly(cs, since)
    ensures KeepsPast(t, Run(t, cs), since)
    decreases cs
  {
    hide Apply;
    if cs != [] {
      ApplyKeepsPast(t, cs[0]);
      PastIsFinal(Apply(t, cs[0]), cs[1..], since);
    }
  }

  // ---------------------------------------------------------------------------------------------
  // Applying a series again
  // ---------------------------------------------------------------------------------------------

  /** What a guarded upsert of a whole series leaves at one key. */
  ghost predicate EstimatedAt(t: Table, p: int, xs: seq<Point>, r: Table, k: Key) {
    var at := PointAt(xs, k.1);
    if k.0 != p || at == [] || Observed(t, k) then (k in r <==> k in t) && (k in t ==> r[k] == t[k])
    else k in r && r[k] == Snap(at[0].value, at[0].approx)
  }

  lemma {:induction false} NoPointAt(xs: seq<Point>, day: int)
    ensures PointAt(xs, day) == [] <==> forall i :: 0 <= i < |xs| ==> xs[i].day != day
    ensures PointAt(xs, day) != [] ==> PointAt(xs, day)[0].day == day && PointAt(xs, day)[0] in xs
  {
    if xs != [] {
      NoPointAt(xs[1..], day);
      assert xs == [xs[0]] + xs[1..];
    }
  }

  lemma {:induction false} EstimateAllAt(t: Table, p: int, xs: seq<Point>, k: Key)
    requires DistinctDays(xs)
    ensures EstimatedAt(t, p, xs, EstimateAll(t, p, xs), k)
    decreases xs
  {
    if xs != [] {
      EstimateAllAt(Estimate(t, p, xs[0]), p, xs[1..], k);
      NoPointAt(xs[1..], k.1);
    }
  }

  lemma {:induction false} BeforeAt(xs: seq<Point>, today: int, day: int)
    ensures PointAt(Before(xs, today), day) == if day < today then PointAt(xs, day) else []
  {
    if xs != [] {
      BeforeAt(xs[1..], today, day);
      if xs[0].day < today {
        assert ([xs[0]] + Before(xs[1..], today))[1..] == Before(xs[1..], today);
      } else {
        assert Before(xs, today) == Before(xs[1..], today);
      }
    }
  }

  lemma {:induction false} BeforeDistinct(xs: seq<Point>, today: int)
    requires DistinctDays(xs)
    ensures DistinctDays(Before(xs, today)) && forall x :: x in Before(xs, today) ==> x in xs
  {
    if xs != [] {
      BeforeDistinct(xs[1..], today);
      assert forall x :: x in xs[1..] ==> x.day != xs[0].day;
    }
  }

  lemma {:induction false} EstimatedDistinct(xs: seq<Point>)
    ensures |Estimated(xs)| == |xs|
    ensures forall i :: 0 <= i < |xs| ==> Estimated(xs)[i] == xs[i].(approx := true)
  {
    if xs != [] {
      EstimatedDistinct(xs[1..]);
    }
  }

  lemma EstimatingTwice(t: Table, p: int, xs: seq<Point>)
    requires DistinctDays(xs)
    ensures EstimateAll(EstimateAll(t, p, xs), p, xs) == EstimateAll(t, p, xs)
  {
    hide EstimateAll, PointAt;
    var r := EstimateAll(t, p, xs);
    var r2 := EstimateAll(r, p, xs);
    forall k ensures (k in r2 <==> k in r) && (k in r ==> r2[k] == r[k]) {
      EstimateAllAt(t, p, xs, k);
      EstimateAllAt(r, p, xs, k);
    }
  }

  /** Running a demo backfill again changes nothing. */
  lemma DemoTwice(t: Table, p: int, series: seq<Point>)
    requires DistinctDays(series)
    ensures Demo(Demo(t, p, series), p, series) == Demo(t, p, series)
  {
    EstimatedDistinct(series);
    EstimatingTwice(t, p, Estimated(series));
  }

  /** Running a connected backfill again with the same series changes nothing. */
  lemma BackfillTwice(t: Table, p: int, today: int, series: seq<Point>)
    requires DistinctDays(series)
    ensures Backfilled(Backfilled(t, p, today, series), p, today, series) == Backfilled(t, p, today, series)
  {
    hide EstimateAll, PointAt, Before;
    var xs := Before(series, today);
    BeforeDistinct(series, today);
    var r := Backfilled(t, p, today, series);
    forall k ensures EstimatedAt(t, p, xs, EstimateAll(t, p, xs), k) && EstimatedAt(r, p, xs, EstimateAll(r, p, xs), k) {
      EstimateAllAt(t, p, xs, k);
      EstimateAllAt(r, p, xs, k);
    }
    BeforeAt(series, today, today);
    var r2 := Backfilled(r, p, today, series);
    assert r2 == r by {
      forall k ensures (k in r2 <==> k in r) && (k in r ==> r2[k] == r[k]) {
        assert EstimatedAt(t, p, xs, EstimateAll(t, p, xs), k);
        assert EstimatedAt(r, p, xs, EstimateAll(r, p, xs), k);
      }
    }
  }

  // ---------------------------------------------------------------------------------------------
  // What each writer writes
  // ---------------------------------------------------------------------------------------------

  predicate SameAt(t: Table, r: Table, k: Key) { (k in r <==> k in t) && (k in t ==> r[k] == t[k]) }

  lemma {:induction false} PointIs(xs: seq<Point>, x: Point)
    requires DistinctDays(xs) && x in xs
    ensures PointAt(xs, x.day) == [x]
  {
    if xs[0] != x {
      var i :| 0 < i < |xs| && xs[i] == x;
      assert xs[1..][i-1] == x;
      PointIs(xs[1..], x);
    }
  }

  lemma NoPointIs(xs: seq<Point>, day: int)
    requires forall x :: x in xs ==> x.day != day
    ensures PointAt(xs, day) == []
  {
    NoPointAt(xs, day);
  }

  /**
    A connected backfill writes today's point as observed whatever was there, past points over estimates
    and gaps only, and nothing else.
   */
  lemma BackfillWrites(t: Table, p: int, today: int, series: seq<Point>)
    requires DistinctDays(series)
    ensures var r := Backfilled(t, p, today, series);
            && (forall x :: x in series && x.day == today ==> (p, today) in r && r[(p, today)] == Snap(x.value, false))
            && (forall x :: x in series && x.day < today && !Observed(t, (p, x.day)) ==>
                  (p, x.day) in r && r[(p, x.day)] == Snap(x.value, x.approx))
            && (forall x :: x in series && x.day < today && Observed(t, (p, x.day)) ==> SameAt(t, r, (p, x.day)))
    ensures forall k: Key :: k.0 != p || k.1 > today || (forall x :: x in series ==> x.day != k.1) ==>
      SameAt(t, Backfilled(t, p, today, series), k)
  {
    hide EstimateAll, PointAt, Before;
    var xs, r := Before(series, today), Backfilled(t, p, today, series);
    BeforeDistinct(series, today);
    forall k: Key ensures EstimatedAt(t, p, xs, EstimateAll(t, p, xs), k)
      && PointAt(xs, k.1) == if k.1 < today then PointAt(series, k.1) else []
    {
      EstimateAllAt(t, p, xs, k);
      BeforeAt(series, today, k.1);
    }
    forall x | x in series ensures PointAt(series, x.day) == [x] {
      PointIs(series, x);
    }
    forall day | forall x :: x in series ==> x.day != day ensures PointAt(series, day) == [] {
      NoPointIs(series, day);
    }
    NoPointAt(series, today);
  }

  /** A demo backfill writes estimates, over estimates and gaps only. */
  lemma DemoWrites(t: Table, p: int, series: seq<Point>)
    requires DistinctDays(series)
    ensures var r := Demo(t, p, series);
            forall x :: x in series ==>
              if Observed(t, (p, x.day)) then SameAt(t, r, (p, x.day))
              else (p, x.day) in r && r[(p, x.day)] == Snap(x.value, true)
    ensures forall k: Key :: k.0 != p || (forall x :: x in series ==> x.day != k.1) ==> SameAt(t, Demo(t, p, series), k)
  {
    hide EstimateAll, PointAt, Estimated;
    var xs, r := Estimated(series), Demo(t, p, series);
    EstimatedDistinct(series);
    forall x | x in series
      ensures if Observed(t, (p, x.day)) then SameAt(t, r, (p, x.day)) else (p, x.day) in r && r[(p, x.day)] == Snap(x.value, true)
    {
      var i :| 0 <= i < |series| && series[i] == x;
      assert xs[i] in xs;
      PointIs(xs, xs[i]);
      EstimateAllAt(t, p, xs, (p, x.day));
    }
    forall k: Key | k.0 != p || forall x :: x in series ==> x.day != k.1 ensures SameAt(t, r, k) {
      EstimateAllAt(t, p, xs, k);
      if k.0 == p {
        NoPointIs(xs, k.1);
      }
    }
  }

  predicate OncePerPortfolio(jobs: seq<Job>) { forall i, j :: 0 <= i < j < |jobs| ==> jobs[i].p != jobs[j].p }

  /** The daily job writes today's observed value of every Pro portfolio it could derive, and nothing else. */
  lemma {:induction false} DailyWrites(t: Table, today: int, jobs: seq<Job>)
    requires OncePerPortfolio(jobs)
    ensures var r := Daily(t, today, jobs);
            forall j :: j in jobs && j.pro && j.derived ==> (j.p, today) in r && r[(j.p, today)] == Snap(j.value, false)
    ensures forall k: Key :: k.1 != today || (forall j :: j in jobs && j.p == k.0 ==> !(j.pro && j.derived)) ==>
      SameAt(t, Daily(t, today, jobs), k)
    decreases jobs
  {
    if jobs != [] {
      var j := jobs[0];
      var t1 := if j.pro && j.derived then Observe(t, j.p, today, j.value) else t;
      DailyWrites(t1, today, jobs[1..]);
      assert forall x :: x in jobs <==> x == j || x in jobs[1..];
      assert forall x :: x in jobs[1..] ==> x.p != j.p;
      assert SameAt(t1, Daily(t1, today, jobs[1..]), (j.p, today));
    }
  }

  // ---------------------------------------------------------------------------------------------
  // The reclassification pass
  // ---------------------------------------------------------------------------------------------

  /** No reclassification of a row's portfolio meets a gap between the row and the newest one. */
  ghost predicate NeverCutOff(t: Table, cs: seq<Call>, k: Key) {
    forall i :: 0 <= i < |cs| && cs[i].write == Reclassify(k.0) ==> !Gap(DaysOf(Run(t, cs[..i]), k.0), k.1)
  }

  ghost predicate Stays(t: Table, cs: seq<Call>, k: Key) {
    forall n :: 0 <= n <= |cs| ==> SameRow(t, Run(t, cs[..n]), k)
  }

  predicate SameRow(t: Table, t': Table, k: Key) { k in t && k in t' && t'[k] == t[k] }

  lemma RunPrefix(t: Table, cs: seq<Call>, n: nat)
    requires 0 < n <= |cs|
    ensures Run(t, cs[..n]) == Run(Apply(t, cs[0]), cs[1..][..n-1])
  {
    assert cs[..n][1..] == cs[1..][..n-1];
  }

  lemma ApplyKeepsRow(t: Table, c: Call, k: Key)
    requires Observed(t, k) && k.1 < c.today
    ensures SameRow(t, Apply(t, c), k) <==> !(c.write == Reclassify(k.0) && Gap(DaysOf(t, k.0), k.1))
  {
    if !c.write.Reclassify? {
      ApplyKeepsPast(t, c);
    }
  }

  /**
    An observed row of a past day stays as it is through a run of any writers exactly when no
    reclassification in it finds a gap behind the row.
   */
  lemma {:induction false} StaysIffNeverCutOff(t: Table, cs: seq<Call>, k: Key)
    requires Observed(t, k) && forall i :: 0 <= i < |cs| ==> k.1 < cs[i].today
    ensures Stays(t, cs, k) <==> NeverCutOff(t, cs, k)
    decreases cs
  {
    hide Apply, Gap, DaysOf;
    if cs != [] {
      var t1 := Apply(t, cs[0]);
      ApplyKeepsRow(t, cs[0], k);
      assert Run(t, cs[..0]) == t;
      RunPrefix(t, cs, 1);
      assert Run(t, cs[..1]) == t1;
      if SameRow(t, t1, k) {
        StaysIffNeverCutOff(t1, cs[1..], k);
        forall n | 0 < n <= |cs| ensures Run(t, cs[..n]) == Run(t1, cs[1..][..n-1]) {
          RunPrefix(t, cs, n);
        }
        forall n | 0 <= n < |cs| ensures Run(t1, cs[1..][..n]) == Run(t, cs[..n+1]) {
          RunPrefix(t, cs, n + 1);
        }
        assert Stays(t1, cs[1..], k) <==> Stays(t, cs, k);
        assert NeverCutOff(t1, cs[1..], k) <==> NeverCutOff(t, cs, k);
      }
    }
  }

  /**
    A backfill right after the pass puts its own point in the place of every past row that is cut off,
    observed or not, and of no other observed row.
   */
  lemma ReclassifyingReopens(t: Table, p: int, day: int, today: int, series: seq<Point>)
    requires DistinctDays(series) && PointAt(series, day) != [] && day < today && Observed(t, (p, day))
    ensures var r := Run(t, [Call(today, Reclassify(p)), Call(today, ConnectedFull(p, series))]);
            var x := PointAt(series, day)[0];
            && (p, day) in r
            && r[(p, day)] == if Gap(DaysOf(t, p), day) then Snap(x.value, x.approx) else t[(p, day)]
  {
    hide Gap, DaysOf, EstimateAll, PointAt, Before;
    var a, b := Call(today, Reclassify(p)), Call(today, ConnectedFull(p, series));
    var t1 := Reclassified(t, p);
    assert [a, b][1..] == [b] && [b][1..] == [];
    assert Run(t, [a, b]) == Run(Apply(t, a), [b]) == Run(Apply(t1, b), []) == Backfilled(t1, p, today, series);
    BeforeDistinct(series, today);
    BeforeAt(series, today, day);
    EstimateAllAt(t1, p, Before(series, today), (p, day));
  }

  /** A second pass finds the same gaps and nothing left to flip. */
  lemma ReclassifyTwice(t: Table, p: int)
    ensures Reclassified(Reclassified(t, p), p) == Reclassified(t, p)
  {
    assert DaysOf(Reclassified(t, p), p) == DaysOf(t, p);
  }
}
