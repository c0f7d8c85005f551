/**
  The sliding-window limiter (src/lib/rate-limit.ts): a sorted set per client that is pruned, grown,
  counted and given a time to live at every request, refused or not.
 */
module RateLimit {

  /** The scores of one sorted set, and the time its key expires. */
  datatype Bucket = Bucket(scores: seq<int>, expires: int)

  /** The hits after time `t`. */
  function After(hits: seq<int>, t: int): seq<int> {
    if hits == [] then [] else (if hits[0] > t then [hits[0]] else []) + After(hits[1..], t)
  }

  predicate Forward(hits: seq<int>) { forall i, j :: 0 <= i < j < |hits| ==> hits[i] <= hits[j] }

  /** An expired or missing key reads as an empty set. */
  function ScoresAt(b: Bucket, now: int): seq<int> { if now < b.expires then b.scores else [] }

  /** The pipeline of one request: prune up to the window's start, add, refresh the time to live. */
  function Touched(b: Bucket, now: int, window: nat): Bucket {
    Bucket(After(ScoresAt(b, now), now - window) + [now], now + window)
  }

  const ABSENT := Bucket([], 0)

  /** The bucket that a history of hits leaves behind. */
  function Replay(hits: seq<int>, window: nat): Bucket {
    if hits == [] then ABSENT
    else Touched(Replay(hits[..|hits|-1], window), hits[|hits|-1], window)
  }

  lemma {:induction false} AfterAppend(xs: seq<int>, ys: seq<int>, t: int)
    ensures After(xs + ys, t) == After(xs, t) + After(ys, t)
  {
    if xs == [] {
      assert xs + ys == ys;
    } else {
      assert (xs + ys)[1..] == xs[1..] + ys;
      AfterAppend(xs[1..], ys, t);
    }
  }

  lemma {:induction false} AfterTwice(xs: seq<int>, s: int, t: int)
    requires s <= t
    ensures After(After(xs, s), t) == After(xs, t)
  {
    if xs != [] {
      AfterTwice(xs[1..], s, t);
      AfterAppend(if xs[0] > s then [xs[0]] else [], After(xs[1..], s), t);
    }
  }

  lemma {:induction false} NoneAfter(xs: seq<int>, t: int)
    requires forall i :: 0 <= i < |xs| ==> xs[i] <= t
    ensures After(xs, t) == []
  {
    if xs != [] {
      NoneAfter(xs[1..], t);
    }
  }

  /**
    Pruning and expiry lose nothing that matters: at every moment the set holds exactly the hits of
    the whole history that lie in the window ending at the last one.
   */
  lemma {:induction false} SetIsWindow(hits: seq<int>, window: nat)
    requires hits != [] && Forward(hits) && window > 0
    ensures var last := hits[|hits|-1];
            Replay(hits, window) == Bucket(After(hits, last - window), last + window)
  {
    hide After, Touched;
    var before, last := hits[..|hits|-1], hits[|hits|-1];
    if before == [] {
      TouchWindow(ABSENT, [], last, window);
    } else {
      SetIsWindow(before, window);
      ForwardAtMost(hits);
      TouchWindow(Replay(before, window), before, last, window);
    }
    assert hits == before + [last];
  }

  /** One request on a set that holds its window leaves a set that holds the next one. */
  lemma TouchWindow(b: Bucket, before: seq<int>, last: int, window: nat)
    requires Forward(before) && (forall t :: t in before ==> t <= last) && window > 0
    requires before == [] ==> b == ABSENT
    requires before != [] ==> b.expires == before[|before|-1] + window && b.scores == After(before, before[|before|-1] - window)
    ensures Touched(b, last, window) == Bucket(After(before + [last], last - window), last + window)
  {
    hide After, Forward;
    AfterAppend(before, [last], last - window);
    AfterOne(last, last - window);
    NoneAfter([], last - window);
    if before != [] {
      var prev := before[|before|-1];
      assert prev in before;
      if last < b.expires {
        AfterTwice(before, prev - window, last - window);
      } else {
        ForwardAtMost(before);
        NoneAfter(before, last - window);
      }
    }
  }

  lemma ForwardAtMost(hits: seq<int>)
    requires Forward(hits) && hits != []
    ensures forall i :: 0 <= i < |hits| ==> hits[i] <= hits[|hits|-1]
  {
  }

  lemma AfterOne(h: int, t: int)
    requires h > t
    ensures After([h], t) == [h]
  {
  }

  // ---------------------------------------------------------------------------------------------
  // How many requests get through
  // ---------------------------------------------------------------------------------------------

  /** Request `i` of the history is let through: the count includes itself and every refused hit. */
  predicate Admitted(hits: seq<int>, i: nat, window: nat, limit: nat)
    requires i < |hits|
  {
    |After(hits[..i+1], hits[i] - window)| <= limit
  }

  /** The admitted requests among the first `n` whose time lies in [lo, hi]. */
  function AdmittedIn(hits: seq<int>, n: nat, window: nat, limit: nat, lo: int, hi: int): nat
    requires n <= |hits|
  {
    if n == 0 then 0
    else
      AdmittedIn(hits, n - 1, window, limit, lo, hi)
      + (if Admitted(hits, n - 1, window, limit) && lo <= hits[n-1] <= hi then 1 else 0)
  }

  /** Admitted hits not older than `lo` are among the hits after any earlier time. */
  lemma {:induction false} AdmittedAreHits(hits: seq<int>, n: nat, window: nat, limit: nat, lo: int, hi: int, t: int)
    requires n <= |hits| && t < lo
    ensures AdmittedIn(hits, n, window, limit, lo, hi) <= |After(hits[..n], t)|
  {
    if n > 0 {
      AdmittedAreHits(hits, n - 1, window, limit, lo, hi, t);
      assert hits[..n] == hits[..n-1] + [hits[n-1]];
      AfterAppend(hits[..n-1], [hits[n-1]], t);
    }
  }

  lemma {:induction false} ShortIntervals(hits: seq<int>, n: nat, window: nat, limit: nat, lo: int, hi: int)
    requires n <= |hits| && hi - lo < window
    ensures AdmittedIn(hits, n, window, limit, lo, hi) <= limit
  {
    if n > 0 {
      if Admitted(hits, n - 1, window, limit) && lo <= hits[n-1] <= hi {
        AdmittedAreHits(hits, n, window, limit, lo, hi, hits[n-1] - window);
        assert hits[..n] == hits[..(n-1)+1];
      } else {
        ShortIntervals(hits, n - 1, window, limit, lo, hi);
      }
    }
  }

  /** However the clock of requests runs, no interval of this length lets more than `limit` through. */
  ghost predicate Enforced(length: nat, window: nat, limit: nat) {
    forall hits, lo :: Forward(hits) && Positive(hits) ==> Through(hits, window, limit, lo, length) <= limit
  }

  predicate Positive(hits: seq<int>) { forall i :: 0 <= i < |hits| ==> hits[i] >= 0 }

  /** How many requests of the history get through in [lo, lo + length]. */
  function Through(hits: seq<int>, window: nat, limit: nat, lo: int, length: nat): nat {
    AdmittedIn(hits, |hits|, window, limit, lo, lo + length)
  }

  /** `limit` hits at time 0, then one when they have just left the window. */
  function Burst(window: nat, limit: nat): seq<int> { seq(limit, i => 0) + [window] }

  lemma BurstHits(window: nat, limit: nat, i: nat)
    requires i <= limit && window > 0
    ensures Burst(window, limit)[i] == if i < limit then 0 else window
    ensures limit > 0 ==> Admitted(Burst(window, limit), i, window, limit)
  {
    var hits := Burst(window, limit);
    if i == limit {
      assert hits[..i+1] == hits[..limit] + [window];
      AfterAppend(hits[..limit], [window], 0);
      NoneAfter(hits[..limit], 0);
    } else {
      AfterShorter(hits[..i+1], hits[i] - window);
    }
  }

  lemma {:induction false} AfterShorter(xs: seq<int>, t: int)
    ensures |After(xs, t)| <= |xs|
  {
    if xs != [] {
      AfterShorter(xs[1..], t);
    }
  }

  lemma {:induction false} BurstAdmits(window: nat, limit: nat, n: nat, length: nat)
    requires window > 0 && limit > 0 && length >= window && n <= limit + 1
    ensures AdmittedIn(Burst(window, limit), n, window, limit, 0, length) == n
  {
    if n > 0 {
      BurstAdmits(window, limit, n - 1, length);
      BurstHits(window, limit, n - 1);
    }
  }

  /**
    The limit holds over every interval shorter than the window, and over no longer one: the window
    is open at its start, so a hit exactly one window old no longer counts.
   */
  lemma EnforcedIffShorter(length: nat, window: nat, limit: nat)
    requires window > 0
    ensures Enforced(length, window, limit) <==> length < window || limit == 0
  {
    if length < window || limit == 0 {
      forall hits, lo ensures Through(hits, window, limit, lo, length) <= limit {
        if length < window {
          ShortIntervals(hits, |hits|, window, limit, lo, lo + length);
        } else {
          NothingAdmitted(hits, |hits|, window, lo, lo + length);
        }
      }
    } else {
      var hits := Burst(window, limit);
      BurstAdmits(window, limit, limit + 1, length);
      forall i | 0 <= i < |hits| ensures hits[i] == if i < limit then 0 else window {
        BurstHits(window, limit, i);
      }
      assert Through(hits, window, limit, 0, length) == limit + 1;
    }
  }

  lemma {:induction false} NothingAdmitted(hits: seq<int>, n: nat, window: nat, lo: int, hi: int)
    requires n <= |hits| && window > 0
    ensures AdmittedIn(hits, n, window, 0, lo, hi) == 0
  {
    if n > 0 {
      NothingAdmitted(hits, n - 1, window, lo, hi);
      assert hits[..n] == hits[..n-1] + [hits[n-1]];
      AfterAppend(hits[..n-1], [hits[n-1]], hits[n-1] - window);
    }
  }

  lemma ReplayNext(before: seq<int>, now: int, window: nat)
    requires window > 0 && Forward(before) && forall t :: t in before ==> t <= now
    ensures var log := before + [now];
            && Forward(log) && log[..|log|-1 + 1] == log
            && Replay(log, window) == Touched(if before == [] then ABSENT else Replay(before, window), now, window)
            && Replay(log, window).scores == After(log, now - window)
  {
    hide After, Touched;
    var log := before + [now];
    assert log[..|log|-1] == before;
    ForwardSnoc(before, now);
    SetIsWindow(log, window);
  }

  lemma NoHitsForward()
    ensures Forward([])
  {
  }

  lemma ForwardSnoc(before: seq<int>, now: int)
    requires Forward(before) && forall t :: t in before ==> t <= now
    ensures Forward(before + [now])
  {
    forall i | 0 <= i < |before| ensures before[i] <= now {
      assert before[i] in before;
    }
  }

  // ---------------------------------------------------------------------------------------------
  // The limiter
  // ---------------------------------------------------------------------------------------------

  class RateLimiter {
    const limit: nat
    const window: nat
    var buckets: map<string, Bucket>
    /** Every hit of every client, which the program does not keep. */
    ghost var hits: map<string, seq<int>>

    ghost function HitsOf(client: string): seq<int>
      reads this
    {
      if client in hits then hits[client] else []
    }

    ghost predicate Valid()
      reads this
    {
      && window > 0
      && (forall client :: client in buckets <==> client in hits)
      && forall client :: client in hits ==>
          hits[client] != [] && Forward(hits[client]) && buckets[client] == Replay(hits[client], window)
    }

    constructor (limit: nat, window: nat)
      requires window > 0
      ensures Valid() && hits == map[] && this.limit == limit && this.window == window
    {
      this.limit, this.window := limit, window;
      buckets, hits := map[], map[];
    }

    /** One request at time `now`; the clock does not go back. */
    method Hit(client: string, now: int) returns (admitted: bool)
      requires Valid() && now >= 0
      requires forall t :: t in HitsOf(client) ==> t <= now
      modifies this
      ensures Valid()
      ensures hits == old(hits)[client := old(HitsOf(client)) + [now]]
      ensures admitted <==> Admitted(hits[client], |hits[client]| - 1, window, limit)
    {
      hide After, Replay, Forward;
      var b := if client in buckets then buckets[client] else ABSENT;
      var scores := After(ScoresAt(b, now), now - window);
      scores := scores + [now];
      ghost var log := HitsOf(client) + [now];
      NoHitsForward();
      ReplayNext(HitsOf(client), now, window);
      buckets := buckets[client := Bucket(scores, now + window)];
      hits := hits[client := log];
      admitted := |scores| <= limit;
    }
  }
}
