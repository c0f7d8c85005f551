/**
  A token's daily price series (buildRealSeries in src/scripts/backfill-snapshots.ts): known days are
  carried forward over the window, the time before the first known day is back-filled.
 */
module PriceSeries {
  import opened Options
  import opened Sets
  import opened Snapshots
  import opened SnapshotStores

  ghost predicate IsMin(m: Days, d: int) { d in m && forall e :: e in m ==> d <= e }

  ghost predicate IsMax(m: Days, d: int) { d in m && forall e :: e in m ==> e <= d }

  /** The last known day in [lo, hi]. */
  ghost predicate IsLastIn(m: Days, lo: int, hi: int, d: int) {
    d in m && lo <= d <= hi && forall e :: e in m && lo <= e <= hi ==> e <= d
  }

  ghost predicate NoneIn(m: Days, lo: int, hi: int) { forall e :: e in m ==> !(lo <= e <= hi) }

  /** The value the loop carries on a day: the last known one inside the window, or the oldest of all. */
  ghost predicate IsCarried(m: Days, lo: int, day: int, v: real) {
    && (forall d :: IsLastIn(m, lo, day, d) ==> v == m[d].value)
    && (NoneIn(m, lo, day) ==> forall d :: IsMin(m, d) ==> v == m[d].value)
  }

  /** The value history has for a day: the last known one on or before it, or the oldest of all. */
  ghost predicate IsHistorical(m: Days, day: int, v: real) {
    && (forall d :: IsLast(m, day, d) ==> v == m[d].value)
    && ((forall e :: e in m ==> e > day) ==> forall d :: IsMin(m, d) ==> v == m[d].value)
  }

  predicate Consecutive(days: seq<int>) { forall i :: 0 <= i < |days| ==> days[i] == days[0] + i }

  method Extremes(m: Days) returns (oldest: int, newest: int)
    requires m != map[]
    ensures IsMin(m, oldest) && IsMax(m, newest)
  {
    var sorted := SortDays(m.Keys);
    SomeKey(m);
    var some :| some in m;
    assert some in sorted;
    oldest, newest := sorted[0], sorted[|sorted|-1];
    forall e | e in m ensures oldest <= e <= newest {
      var i :| 0 <= i < |sorted| && sorted[i] == e;
    }
  }

  method CollectDays(prices: seq<Dated>) returns (m: Days)
    ensures m == Overlay(map[], prices, false) && (m == map[] <==> prices == [])
  {
    m := map[];
    var i := 0;
    while i < |prices|
      invariant 0 <= i <= |prices| && m == Overlay(map[], prices[..i], false)
      invariant m == map[] <==> i == 0
    {
      assert prices[..i+1][..i] == prices[..i];
      m := m[prices[i].day := Snap(prices[i].value, false)];
      assert prices[i].day in m;
      i := i + 1;
    }
    assert prices[..i] == prices;
  }

  method CarryForward(m: Days, days: seq<int>, oldest: int) returns (out: seq<real>)
    requires IsMin(m, oldest) && days != [] && Consecutive(days)
    ensures |out| == |days| && forall k :: 0 <= k < |days| ==> IsCarried(m, days[0], days[k], out[k])
  {
    hide IsCarried;
    var carry := m[oldest].value;
    CarryNone(m, days[0], oldest);
    out := [];
    var i := 0;
    while i < |days|
      invariant 0 <= i <= |days| && |out| == i
      invariant IsCarried(m, days[0], days[0] + i - 1, carry)
      invariant forall k :: 0 <= k < i ==> IsCarried(m, days[0], days[k], out[k])
    {
      CarryOne(m, days[0], days[0] + i, carry);
      if days[i] in m {
        carry := m[days[i]].value;
      }
      out := out + [carry];
      i := i + 1;
    }
  }

  lemma CarryNone(m: Days, lo: int, oldest: int)
    requires IsMin(m, oldest)
    ensures IsCarried(m, lo, lo - 1, m[oldest].value)
  {
  }

  /** None when nothing is known; otherwise one price per day of the window, ending on the newest. */
  method BuildRealSeries(prices: seq<Dated>, days: seq<int>) returns (r: Option<seq<real>>)
    requires days != [] && Consecutive(days)
    ensures r == None <==> prices == []
    ensures r.Some? ==> |r.value| == |days| && IsSeries(Overlay(map[], prices, false), days, r.value)
  {
    hide Overlay, IsCarried;
    var byDate := CollectDays(prices);
    if byDate == map[] {
      return None;
    }
    var oldest, newest := Extremes(byDate);
    var out := CarryForward(byDate, days, oldest);
    r := Some(out[..|days|-1] + [byDate[newest].value]);
  }

  /** Carried values, except that the last slot is the newest known price whatever its day. */
  ghost predicate IsSeries(m: Days, days: seq<int>, out: seq<real>)
    requires |out| == |days| > 0
  {
    && (forall i :: 0 <= i < |days| - 1 ==> IsCarried(m, days[0], days[i], out[i]))
    && forall d :: IsMax(m, d) ==> out[|days|-1] == m[d].value
  }

  lemma CarryOne(m: Days, lo: int, day: int, v: real)
    requires IsCarried(m, lo, day - 1, v) && lo <= day
    ensures IsCarried(m, lo, day, if day in m then m[day].value else v)
  {
    if day !in m {
      forall d | IsLastIn(m, lo, day, d) ensures IsLastIn(m, lo, day - 1, d) {
      }
      assert NoneIn(m, lo, day) ==> NoneIn(m, lo, day - 1);
    }
  }

  /** A day of m on or before day with no later one among these. */
  ghost predicate IsLast(m: Days, day: int, d: int) { d in m && d <= day && forall e :: e in m && e <= day ==> e <= d }

  /**
    Exactly when the carried value is the one history has: some day inside the window is known by then,
    nothing is known by then at all, or the oldest price is also the last one known by then.
   */
  lemma CarriedIsHistoricalIff(m: Days, lo: int, day: int, v: real, oldest: int)
    requires IsMin(m, oldest) && IsCarried(m, lo, day, v)
    ensures IsHistorical(m, day, v)
      <==> !NoneIn(m, lo, day) || oldest > day || exists d :: IsLast(m, day, d) && m[d].value == m[oldest].value
  {
    if !NoneIn(m, lo, day) {
      forall d | IsLast(m, day, d) ensures IsLastIn(m, lo, day, d) {
      }
    } else if oldest <= day {
      assert v == m[oldest].value;
      var last := LastDay(m, day, oldest);
      assert IsLast(m, day, last);
      assert forall d :: IsLast(m, day, d) ==> d == last;
    }
  }

  /** So with two known days before the window the older one is carried into it, not the last one. */
  lemma OlderDayIsCarried(m: Days, v: real)
    requires m == map[1 := Snap(10.0, false), 2 := Snap(20.0, false)] && IsCarried(m, 3, 3, v)
    ensures v == 10.0 && !IsHistorical(m, 3, v)
  {
    assert 1 in m && 2 in m;
    assert IsMin(m, 1) && IsLast(m, 3, 2) && forall d :: IsLast(m, 3, d) ==> d == 2;
    CarriedIsHistoricalIff(m, 3, 3, v, 1);
  }

  lemma LastDay(m: Days, day: int, some: int) returns (last: int)
    requires some in m && some <= day
    ensures IsLast(m, day, last)
  {
    var days := set d | d in m && d <= day;
    assert some in days;
    last := Latest(days);
    assert forall e :: e in m && e <= day ==> e in days;
  }

  lemma {:induction false} Latest(days: set<int>) returns (last: int)
    requires days != {}
    ensures last in days && forall d :: d in days ==> d <= last
    decreases days
  {
    SomeNumber(days);
    last :| last in days;
    assert forall e :: e in days ==> e == last || e in days - {last};
    if days - {last} != {} {
      var rest := Latest(days - {last});
      if last < rest {
        last := rest;
      }
    }
  }
}
