/**
  From exchange ticks to one canonical price per symbol (src/lib/price-resolver.ts): freshness, the
  Kraken merge, the outlier guard, priorities, and what one tick writes.
 */
module PriceResolver {
  import opened Options
  import opened Medians

  datatype Exchange = Binance | Coinbase | Okx | Bybit | Gate | KuCoin | Kraken | KrakenBbo

  /** Every per-exchange key that is read back, in reading order. */
  const EXCHANGES: seq<Exchange> := [Binance, Coinbase, Okx, Bybit, Gate, KuCoin, Kraken, KrakenBbo]

  const STALENESS_WINDOW := 15000
  const PRICE_TTL := 60000
  const HIST_SAMPLE := 180000
  const HIST_MAX_POINTS := 480
  const HIST_TTL := 86400000
  const MAX_TRACKED_SYMBOLS := 10000

  function Priority(e: Exchange): nat {
    match e
    case Binance => 0
    case Coinbase => 1
    case Okx => 2
    case Bybit => 3
    case Gate => 4
    case KuCoin => 5
    case Kraken => 6
    case KrakenBbo => 99
  }

  datatype Tick = Tick(price: real, change24h: real, ts: int)

  /** The ticks one symbol is resolved from. */
  type Feed = map<Exchange, Tick>

  // ---------------------------------------------------------------------------------------------
  // Freshness and the Kraken merge
  // ---------------------------------------------------------------------------------------------

  predicate IsFresh(t: Tick, now: int) { now - t.ts <= STALENESS_WINDOW }

  /** A key read from the store: absent once its time to live has run out. */
  function ReadTick(ticks: map<(string, Exchange), Tick>, sym: string, e: Exchange, now: int): Option<Tick> {
    if (sym, e) in ticks && now < ticks[(sym, e)].ts + PRICE_TTL then Some(ticks[(sym, e)]) else None
  }

  function FreshTicks(ticks: map<(string, Exchange), Tick>, sym: string, now: int): Feed {
    map e | e in EXCHANGES && ReadTick(ticks, sym, e, now).Some? && IsFresh(ReadTick(ticks, sym, e, now).value, now)
      :: ReadTick(ticks, sym, e, now).value
  }

  /** Keys expire long after their tick has gone stale, so expiry never changes a resolution. */
  lemma ExpiryIsInvisible(ticks: map<(string, Exchange), Tick>, sym: string, now: int, e: Exchange)
    ensures e in FreshTicks(ticks, sym, now) <==> (sym, e) in ticks && IsFresh(ticks[(sym, e)], now)
    ensures e in FreshTicks(ticks, sym, now) ==> FreshTicks(ticks, sym, now)[e] == ticks[(sym, e)]
  {
    assert e in EXCHANGES by {
      match e
      case Binance => assert EXCHANGES[0] == e;
      case Coinbase => assert EXCHANGES[1] == e;
      case Okx => assert EXCHANGES[2] == e;
      case Bybit => assert EXCHANGES[3] == e;
      case Gate => assert EXCHANGES[4] == e;
      case KuCoin => assert EXCHANGES[5] == e;
      case Kraken => assert EXCHANGES[6] == e;
      case KrakenBbo => assert EXCHANGES[7] == e;
    }
  }

  /** Which Kraken sub-feed speaks for Kraken: the quote only when strictly newer than the trade. */
  function KrakenSource(feed: Feed): Exchange {
    if KrakenBbo in feed && (Kraken in feed ==> feed[KrakenBbo].ts > feed[Kraken].ts) then KrakenBbo else Kraken
  }

  function Merged(feed: Feed): Feed {
    (if Kraken in feed || KrakenBbo in feed then feed[Kraken := feed[KrakenSource(feed)]] else feed) - {KrakenBbo}
  }

  // ---------------------------------------------------------------------------------------------
  // The outlier guard and the pick
  // ---------------------------------------------------------------------------------------------

  function PricesOf(es: seq<Exchange>, feed: Feed): seq<real> {
    if es == [] then []
    else (if es[0] in feed then [feed[es[0]].price] else []) + PricesOf(es[1..], feed)
  }

  /** The prices in reading order. */
  function Prices(feed: Feed): seq<real> { PricesOf(EXCHANGES, feed) }

  function Kept(ratio: real, feed: Feed): Feed
    requires ratio > 0.0 && Prices(feed) != []
  {
    var median := Median(Prices(feed));
    map e | e in feed && median / ratio <= feed[e].price <= median * ratio :: feed[e]
  }

  /** The highest-priority source among `es` that is in the feed, if any. */
  function BestOf(es: seq<Exchange>, feed: Feed): Option<Exchange> {
    if es == [] then None
    else
      match BestOf(es[1..], feed)
      case None => if es[0] in feed then Some(es[0]) else None
      case Some(b) => if es[0] in feed && Priority(es[0]) <= Priority(b) then Some(es[0]) else Some(b)
  }

  /** What the guard leaves: everything, a cluster of at least two, or the highest-priority source. */
  function Survivors(ratio: real, feed: Feed): (r: Feed)
    requires ratio > 0.0 && feed != map[]
    ensures r != map[] && forall e :: e in r ==> e in feed && r[e] == feed[e]
  {
    FeedHasPrices(feed);
    var kept := Kept(ratio, feed);
    assert kept == map[] ==> |kept| == 0;
    assert forall e :: e in kept ==> e in feed && kept[e] == feed[e];
    if |feed| < 2 then feed
    else if |kept| >= 2 then kept
    else
      var b := BestOf(EXCHANGES, feed).value;
      var best := map[b := feed[b]];
      assert b in best;
      best
  }

  /** The winner's source. */
  function Winner(ratio: real, feed: Feed): (w: Exchange)
    requires ratio > 0.0 && feed != map[]
    ensures w in feed
  {
    FeedHasPrices(feed);
    FeedHasPrices(Survivors(ratio, feed));
    BestOf(EXCHANGES, Survivors(ratio, feed)).value
  }

  lemma {:induction false} BestIsBest(es: seq<Exchange>, feed: Feed)
    ensures var b := BestOf(es, feed);
            && (b.Some? ==> b.value in feed && b.value in es)
            && (b.Some? ==> forall e :: e in es && e in feed ==> Priority(b.value) <= Priority(e))
            && (b.None? ==> forall e :: e in es ==> e !in feed)
  {
    if es != [] {
      BestIsBest(es[1..], feed);
    }
  }

  lemma {:induction false} PricesFound(es: seq<Exchange>, feed: Feed, e: Exchange)
    requires e in es && e in feed
    ensures feed[e].price in PricesOf(es, feed)
  {
    if e != es[0] {
      PricesFound(es[1..], feed, e);
    }
  }

  lemma AllExchanges(e: Exchange)
    ensures e in EXCHANGES
  {
    ExpiryIsInvisible(map[("", e) := Tick(0.0, 0.0, 0)], "", 0, e);
  }

  lemma FeedHasPrices(feed: Feed)
    requires feed != map[]
    ensures Prices(feed) != [] && BestOf(EXCHANGES, feed).Some? && BestOf(EXCHANGES, feed).value in feed
  {
    var e :| e in feed;
    AllExchanges(e);
    PricesFound(EXCHANGES, feed, e);
    BestIsBest(EXCHANGES, feed);
  }

  // ---------------------------------------------------------------------------------------------
  // Who wins
  // ---------------------------------------------------------------------------------------------

  const FIRST_TO_LAST: seq<Exchange> := [Binance, Coinbase, Okx, Bybit, Gate, KuCoin, Kraken]

  /** Who may be picked: the sources near the median if there are two, else all of them. */
  ghost function Pool(ratio: real, feed: Feed): set<Exchange>
    requires ratio > 0.0 && Prices(feed) != []
  {
    var m := Median(Prices(feed));
    var near := set e | e in feed && m / ratio <= feed[e].price <= m * ratio;
    if |near| >= 2 then near else feed.Keys
  }

  lemma InOrder(e: Exchange) returns (i: nat)
    requires e != KrakenBbo
    ensures i < 7 && FIRST_TO_LAST[i] == e
    ensures forall k :: 0 <= k < i ==> Priority(FIRST_TO_LAST[k]) < Priority(e)
  {
    match e
    case Binance => i := 0;
    case Coinbase => i := 1;
    case Okx => i := 2;
    case Bybit => i := 3;
    case Gate => i := 4;
    case KuCoin => i := 5;
    case Kraken => i := 6;
  }

  /** The winner is the first of the pool in the order Binance, Coinbase, OKX, Bybit, Gate, KuCoin, Kraken. */
  lemma WinnerIsFirst(ratio: real, feed: Feed) returns (i: nat)
    requires ratio > 0.0 && feed != map[] && KrakenBbo !in feed
    ensures Prices(feed) != [] && i < 7 && Winner(ratio, feed) == FIRST_TO_LAST[i]
    ensures FIRST_TO_LAST[i] in Pool(ratio, feed)
    ensures forall k :: 0 <= k < i ==> FIRST_TO_LAST[k] !in Pool(ratio, feed)
  {
    hide BestOf, Prices, Median, Priority, FIRST_TO_LAST, EXCHANGES;
    FeedHasPrices(feed);
    FeedHasPrices(Survivors(ratio, feed));
    KeptIsNearMedian(ratio, feed);
    var pool := if |Kept(ratio, feed)| >= 2 then Kept(ratio, feed) else feed;
    var w := Winner(ratio, feed);
    BestIsBest(EXCHANGES, feed);
    BestIsBest(EXCHANGES, Survivors(ratio, feed));
    forall e: Exchange ensures e in EXCHANGES { AllExchanges(e); }
    i := InOrder(w);
  }

  lemma KeptIsNearMedian(ratio: real, feed: Feed)
    requires ratio > 0.0 && Prices(feed) != []
    ensures Pool(ratio, feed) == if |Kept(ratio, feed)| >= 2 then Kept(ratio, feed).Keys else feed.Keys
    ensures |Kept(ratio, feed)| <= |feed|
  {
    hide Prices, Median;
    var m := Median(Prices(feed));
    assert Kept(ratio, feed).Keys == set e | e in feed && m / ratio <= feed[e].price <= m * ratio;
    SubFeed(Kept(ratio, feed), feed);
  }

  lemma SubFeed(sub: Feed, feed: Feed)
    requires sub.Keys <= feed.Keys
    ensures |sub.Keys| == |sub| <= |feed|
  {
    assert |feed.Keys| == |feed|;
    assert feed.Keys == sub.Keys + (feed.Keys - sub.Keys);
  }

  /** One of these is Kraken's fresh tick; never the older one, and the trade when they are of one time. */
  predicate SpeaksForKraken(feed: Feed, source: Exchange) {
    && source in feed && (source == Kraken || source == KrakenBbo)
    && (Kraken in feed ==> feed[Kraken].ts <= feed[source].ts)
    && (KrakenBbo in feed ==> feed[KrakenBbo].ts <= feed[source].ts)
    && (source == KrakenBbo && Kraken in feed ==> feed[Kraken].ts < feed[source].ts)
  }

  /** The merge leaves one Kraken, the newer of its feeds, and everyone else. */
  lemma MergedSpeaks(feed: Feed)
    ensures KrakenBbo !in Merged(feed) && (Kraken in Merged(feed) <==> Kraken in feed || KrakenBbo in feed)
    ensures Kraken in Merged(feed) ==>
      SpeaksForKraken(feed, KrakenSource(feed)) && Merged(feed)[Kraken] == feed[KrakenSource(feed)]
    ensures forall e :: e != Kraken && e != KrakenBbo ==>
      (e in Merged(feed) <==> e in feed) && (e in feed ==> Merged(feed)[e] == feed[e])
  {
  }

  // ---------------------------------------------------------------------------------------------
  // A majority cannot be outvoted
  // ---------------------------------------------------------------------------------------------

  /** The sources priced in [p, q]. */
  function Cluster(feed: Feed, p: real, q: real): set<Exchange> { set e | e in feed && p <= feed[e].price <= q }

  predicate Distinct(es: seq<Exchange>) { forall i, j :: 0 <= i < j < |es| ==> es[i] != es[j] }

  function Listed(es: seq<Exchange>, part: set<Exchange>): set<Exchange> { set e | e in es && e in part }

  lemma ListedHead(es: seq<Exchange>, part: set<Exchange>)
    requires es != [] && Distinct(es)
    ensures |Listed(es, part)| == (if es[0] in part then 1 else 0) + |Listed(es[1..], part)|
  {
    assert es == [es[0]] + es[1..];
    assert es[0] !in es[1..];
    assert Listed(es, part) == Listed(es[1..], part) + (if es[0] in part then {es[0]} else {});
  }

  /** Counting prices is counting sources. */
  lemma {:induction false} CountSources(es: seq<Exchange>, feed: Feed, p: real, q: real)
    requires Distinct(es)
    ensures CountWithin(PricesOf(es, feed), p, q) == |Listed(es, Cluster(feed, p, q))|
    ensures |PricesOf(es, feed)| == |Listed(es, feed.Keys)|
  {
    if es != [] {
      CountSources(es[1..], feed, p, q);
      ListedHead(es, Cluster(feed, p, q));
      ListedHead(es, feed.Keys);
      var head := if es[0] in feed then [feed[es[0]].price] else [];
      CountConcat(head, PricesOf(es[1..], feed), p, q);
    }
  }

  lemma MajorityOfPrices(feed: Feed, p: real, q: real)
    ensures CountWithin(Prices(feed), p, q) == |Cluster(feed, p, q)| && |Prices(feed)| == |feed|
  {
    hide PricesOf, CountWithin;
    CountSources(EXCHANGES, feed, p, q);
    forall e: Exchange ensures e in EXCHANGES { AllExchanges(e); }
    assert Listed(EXCHANGES, Cluster(feed, p, q)) == Cluster(feed, p, q);
    assert Listed(EXCHANGES, feed.Keys) == feed.Keys;
    assert |feed.Keys| == |feed|;
  }

  /** A median inside the range keeps every price of the range within the ratio. */
  lemma RangeIsKept(m: real, ratio: real, p: real, q: real, x: real)
    requires ratio >= 1.0 && 0.0 < p <= q <= p * ratio && p <= m <= q && p <= x <= q
    ensures m / ratio <= x <= m * ratio
  {
    assert m <= x * ratio && x <= m * ratio;
  }

  lemma KeptIsNear(m: real, ratio: real, p: real, q: real, x: real)
    requires ratio >= 1.0 && p <= m <= q && m / ratio <= x <= m * ratio
    ensures p / ratio <= x <= q * ratio
  {
  }

  lemma OwnRange(ratio: real, p: real, q: real, x: real)
    requires ratio >= 1.0 && 0.0 < p <= x <= q
    ensures p / ratio <= x <= q * ratio
  {
    assert x * ratio - x == x * (ratio - 1.0) && q * ratio - q == q * (ratio - 1.0);
    assert x * (ratio - 1.0) >= 0.0 && q * (ratio - 1.0) >= 0.0;
  }

  ghost predicate Majority(feed: Feed, p: real, q: real) { 2 * |Cluster(feed, p, q)| > |feed| }

  lemma ClusterIsKept(ratio: real, feed: Feed, p: real, q: real)
    requires ratio >= 1.0 && 0.0 < p <= q <= p * ratio && feed != map[] && Majority(feed, p, q)
    ensures Prices(feed) != [] && p <= Median(Prices(feed)) <= q
    ensures Cluster(feed, p, q) <= Kept(ratio, feed).Keys
  {
    hide Prices, CountWithin, Median;
    FeedHasPrices(feed);
    MajorityOfPrices(feed, p, q);
    MajorityHoldsMedian(Prices(feed), p, q);
    forall e | e in Cluster(feed, p, q) ensures e in Kept(ratio, feed) {
      RangeIsKept(Median(Prices(feed)), ratio, p, q, feed[e].price);
    }
  }

  /**
    When more than half of the sources agree on a range no wider than the ratio, all of them survive
    the guard and the canonical price stays within the ratio of their range, however wild the others.
   */
  lemma MajorityDecides(ratio: real, feed: Feed, p: real, q: real)
    requires ratio >= 1.0 && 0.0 < p <= q <= p * ratio && feed != map[] && Majority(feed, p, q)
    ensures Cluster(feed, p, q) <= Survivors(ratio, feed).Keys
    ensures p / ratio <= feed[Winner(ratio, feed)].price <= q * ratio
  {
    hide Prices, Median, BestOf, Kept;
    var w := Winner(ratio, feed);
    if |feed| < 2 {
      SingleSource(feed, p, q, w);
      OwnRange(ratio, p, q, feed[w].price);
    } else {
      MajoritySurvives(ratio, feed, p, q);
      MedianIsNear(ratio, feed, p, q, w);
    }
  }

  lemma MajoritySurvives(ratio: real, feed: Feed, p: real, q: real)
    requires ratio >= 1.0 && 0.0 < p <= q <= p * ratio && |feed| >= 2 && Majority(feed, p, q)
    ensures Prices(feed) != [] && Survivors(ratio, feed) == Kept(ratio, feed)
    ensures Cluster(feed, p, q) <= Kept(ratio, feed).Keys
    ensures Winner(ratio, feed) in Kept(ratio, feed)
  {
    hide Prices, Median, BestOf, Kept;
    assert feed != map[];
    ClusterIsKept(ratio, feed, p, q);
    var kept := Kept(ratio, feed);
    SubsetSize(Cluster(feed, p, q), kept.Keys);
    assert |kept| == |kept.Keys|;
    assert kept != map[];
    FeedHasPrices(kept);
  }

  lemma MedianIsNear(ratio: real, feed: Feed, p: real, q: real, w: Exchange)
    requires ratio >= 1.0 && 0.0 < p <= q <= p * ratio && feed != map[] && Majority(feed, p, q)
    requires Prices(feed) != [] && w in Kept(ratio, feed)
    ensures p / ratio <= feed[w].price <= q * ratio
  {
    hide Prices, Median, CountWithin;
    ClusterIsKept(ratio, feed, p, q);
    KeptIsNear(Median(Prices(feed)), ratio, p, q, feed[w].price);
  }

  lemma SubsetSize(part: set<Exchange>, whole: set<Exchange>)
    requires part <= whole
    ensures |part| <= |whole|
  {
    assert whole == part + (whole - part);
  }

  lemma TwoMembers(whole: set<Exchange>, a: Exchange, b: Exchange)
    requires a in whole && b in whole && a != b
    ensures |whole| >= 2
  {
    SubsetSize({a, b}, whole);
  }

  lemma SingleSource(feed: Feed, p: real, q: real, w: Exchange)
    requires |feed| < 2 && Majority(feed, p, q) && w in feed
    ensures p <= feed[w].price <= q && feed.Keys == Cluster(feed, p, q)
  {
    assert |feed| == |feed.Keys|;
    var c :| c in Cluster(feed, p, q);
    forall e | e in feed ensures e == c {
      if e != c {
        TwoMembers(feed.Keys, e, c);
      }
    }
  }

  /** Exactly half is not a majority: the lone honest source is overruled by a misprint. */
  lemma HalfIsNotEnough()
    ensures var feed := map[Binance := Tick(1000.0, 0.0, 0), Coinbase := Tick(1.0, 0.0, 0)];
            2 * |Cluster(feed, 1.0, 1.0)| == |feed| && feed[Winner(5.0, feed)].price == 1000.0
  {
    hide PricesOf, Median, Winner, Kept, BestOf;
    var feed := map[Binance := Tick(1000.0, 0.0, 0), Coinbase := Tick(1.0, 0.0, 0)];
    assert Cluster(feed, 1.0, 1.0) == {Coinbase};
    FeedHasPrices(feed);
    TwoPrices();
    LoneSurvivor(feed);
  }

  lemma TwoPrices()
    ensures var feed := map[Binance := Tick(1000.0, 0.0, 0), Coinbase := Tick(1.0, 0.0, 0)];
            Prices(feed) == [1000.0, 1.0] && Median(Prices(feed)) == 500.5
  {
    var feed := map[Binance := Tick(1000.0, 0.0, 0), Coinbase := Tick(1.0, 0.0, 0)];
    assert PricesOf(EXCHANGES, feed) == [1000.0] + ([1.0] + PricesOf(EXCHANGES[2..], feed));
    assert PricesOf([Okx, Bybit, Gate, KuCoin, Kraken, KrakenBbo], feed) == [];
    assert Sorted([1000.0, 1.0]) == [1.0, 1000.0];
  }

  lemma LoneSurvivor(feed: Feed)
    requires Binance in feed && feed[Binance].price == 1000.0 && Prices(feed) != [] && Median(Prices(feed)) == 500.5
    requires forall e :: e in feed && e != Binance ==> feed[e].price == 1.0
    ensures feed[Winner(5.0, feed)].price == 1000.0
  {
    hide PricesOf, Median, BestOf;
    assert Kept(5.0, feed).Keys == {Binance};
    assert |Kept(5.0, feed)| == |Kept(5.0, feed).Keys| == 1;
    FirstIsBest(feed);
    FirstIsBest(Survivors(5.0, feed));
  }

  lemma FirstIsBest(feed: Feed)
    requires Binance in feed
    ensures BestOf(EXCHANGES, feed) == Some(Binance)
  {
    BestIsBest(EXCHANGES, feed);
    AllExchanges(Binance);
    FeedHasPrices(feed);
  }
}
