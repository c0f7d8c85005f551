/**
  The resolver as it runs (src/lib/price-resolver.ts): module-level maps and store keys updated tick
  by tick, proved against the functions of PriceResolver and PriceFeed.
 */
module PriceStores {
  import opened Options
  import opened Medians
  import opened PriceResolver
  import opened PriceFeed

  lemma PrioritiesDiffer(a: Exchange, b: Exchange)
    ensures Priority(a) == Priority(b) ==> a == b
  {
  }

  /** The least priority number wins; priorities are distinct, so the order of the search is irrelevant. */
  method PickBest(feed: Feed) returns (best: Option<Exchange>)
    ensures best == BestOf(EXCHANGES, feed)
  {
    hide BestOf, Priority;
    best := None;
    var i := 0;
    while i < |EXCHANGES|
      invariant 0 <= i <= |EXCHANGES|
      invariant best.Some? ==> best.value in feed
      invariant best.Some? ==> forall e :: e in EXCHANGES[..i] && e in feed ==> Priority(best.value) <= Priority(e)
      invariant best.None? ==> forall e :: e in EXCHANGES[..i] ==> e !in feed
    {
      var e := EXCHANGES[i];
      assert EXCHANGES[..i+1] == EXCHANGES[..i] + [e];
      if e in feed && (best.None? || Priority(e) < Priority(best.value)) {
        best := Some(e);
      }
      i := i + 1;
    }
    assert EXCHANGES[..i] == EXCHANGES;
    BestIsBest(EXCHANGES, feed);
    if best.Some? {
      AllExchanges(best.value);
      PrioritiesDiffer(best.value, BestOf(EXCHANGES, feed).value);
    }
  }

  method CollectPrices(es: seq<Exchange>, feed: Feed) returns (prices: seq<real>)
    ensures prices == PricesOf(es, feed)
  {
    prices := [];
    var i := 0;
    while i < |es|
      invariant 0 <= i <= |es|
      invariant prices + PricesOf(es[i..], feed) == PricesOf(es, feed)
    {
      assert es[i..][1..] == es[i+1..];
      if es[i] in feed {
        var price := feed[es[i]].price;
        assert prices + ([price] + PricesOf(es[i+1..], feed)) == (prices + [price]) + PricesOf(es[i+1..], feed);
        prices := prices + [feed[es[i]].price];
      }
      i := i + 1;
    }
  }

  method KeepWithin(es: seq<Exchange>, feed: Feed, lo: real, hi: real) returns (kept: Feed)
    requires forall e :: e in feed ==> e in es
    ensures forall e :: e in kept <==> e in feed && lo <= feed[e].price <= hi
    ensures forall e :: e in kept ==> kept[e] == feed[e]
  {
    kept := map[];
    var i := 0;
    while i < |es|
      invariant 0 <= i <= |es|
      invariant forall e :: e in kept <==> e in es[..i] && e in feed && lo <= feed[e].price <= hi
      invariant forall e :: e in kept ==> kept[e] == feed[e]
    {
      var e := es[i];
      assert es[..i+1] == es[..i] + [e];
      if e in feed && lo <= feed[e].price <= hi {
        kept := kept[e := feed[e]];
      }
      i := i + 1;
    }
    assert es[..i] == es;
  }

  lemma KeptWithin(ratio: real, feed: Feed, kept: Feed, lo: real, hi: real)
    requires ratio > 0.0 && Prices(feed) != []
    requires lo == Median(Prices(feed)) / ratio && hi == Median(Prices(feed)) * ratio
    requires forall e :: e in kept <==> e in feed && lo <= feed[e].price <= hi
    requires forall e :: e in kept ==> kept[e] == feed[e]
    ensures kept == Kept(ratio, feed)
  {
    hide Prices, Median;
  }

  /** Drops every source whose price is off the median by more than the ratio. */
  method KeepAgreeing(ratio: real, feed: Feed) returns (kept: Feed)
    requires ratio > 0.0 && feed != map[]
    ensures Prices(feed) != [] && kept == Kept(ratio, feed)
  {
    hide PricesOf, Median, Kept;
    FeedHasPrices(feed);
    var prices := CollectPrices(EXCHANGES, feed);
    var median := Median(prices);
    var lo, hi := median / ratio, median * ratio;
    forall e: Exchange ensures e in EXCHANGES {
      AllExchanges(e);
    }
    kept := KeepWithin(EXCHANGES, feed, lo, hi);
    KeptWithin(ratio, feed, kept, lo, hi);
  }

  /** The guard and the pick. */
  method PickWinner(ratio: real, feed: Feed) returns (w: Exchange)
    requires ratio > 0.0 && feed != map[]
    ensures w == Winner(ratio, feed)
  {
    hide BestOf, Kept, PricesOf;
    FeedHasPrices(feed);
    var left := feed;
    if |feed| >= 2 {
      var kept := KeepAgreeing(ratio, feed);
      assert kept == map[] ==> |kept| == 0;
      if |kept| >= 2 {
        left := kept;
      } else {
        var best := PickBest(feed);
        left := map[best.value := feed[best.value]];
        assert best.value in left;
      }
    }
    FeedHasPrices(left);
    var best := PickBest(left);
    w := best.value;
  }

  class PriceStore {
    const cfg: Config
    var ticks: map<(string, Exchange), Tick>
    var cache: map<string, Payload>
    var published: map<string, seq<real>>
    var lastPublishedPrice: Tracked<real>
    var lastHistSampleAt: Tracked<int>
    var history: map<string, Series>

    ghost function Contents(): State
      reads this
    {
      State(ticks, cache, published, lastPublishedPrice, lastHistSampleAt, history)
    }

    constructor (ratio: real)
      requires ratio >= 1.0
      ensures Contents() == EMPTY && cfg == Config(ratio, MAX_TRACKED_SYMBOLS)
    {
      cfg := Config(ratio, MAX_TRACKED_SYMBOLS);
      ticks, cache, published, history := map[], map[], map[], map[];
      lastPublishedPrice, lastHistSampleAt := Tracked([], map[]), Tracked([], map[]);
    }

    method RecordTick(t: Incoming)
      requires cfg.ratio > 0.0
      modifies this
      ensures Contents() == Ticked(cfg, old(Contents()), t)
    {
      hide Resolve;
      if t.price.None? || t.price.value <= 0.0 {
        return;
      }
      ticks := ticks[(t.sym, t.e) := Tick(t.price.value, t.change24h.GetOr(0.0), t.now)];
      ResolveCanonical(t.sym, t.now);
    }

    method ReadFresh(sym: string, now: int) returns (feed: Feed)
      ensures feed == FreshTicks(ticks, sym, now)
    {
      feed := map[];
      var i := 0;
      while i < |EXCHANGES|
        invariant 0 <= i <= |EXCHANGES|
        invariant forall e :: e in feed <==>
          e in EXCHANGES[..i] && ReadTick(ticks, sym, e, now).Some? && IsFresh(ReadTick(ticks, sym, e, now).value, now)
        invariant forall e :: e in feed ==> feed[e] == ReadTick(ticks, sym, e, now).value
      {
        var e := EXCHANGES[i];
        var raw := ReadTick(ticks, sym, e, now);
        assert EXCHANGES[..i+1] == EXCHANGES[..i] + [e];
        if raw.Some? && now - raw.value.ts <= STALENESS_WINDOW {
          feed := feed[e := raw.value];
        }
        i := i + 1;
      }
      assert EXCHANGES[..i] == EXCHANGES;
    }

    method ResolveCanonical(sym: string, now: int)
      requires cfg.ratio > 0.0
      modifies this
      ensures Contents() == Resolve(cfg, old(Contents()), sym, now)
    {
      hide FreshTicks, Winner, Capped, Put;
      var feed := ReadFresh(sym, now);
      ghost var all := feed;
      var source := Kraken;
      if Kraken in feed || KrakenBbo in feed {
        var useBbo := if Kraken in feed && KrakenBbo in feed then feed[KrakenBbo].ts > feed[Kraken].ts else Kraken !in feed;
        source := if useBbo then KrakenBbo else Kraken;
        feed := feed[Kraken := feed[source]];
      }
      feed := feed - {KrakenBbo};
      assert feed == Merged(all);
      if feed == map[] {
        return;
      }
      var w := PickWinner(cfg.ratio, feed);
      MergedIsFresh(all, w);
      var payload := Payload(feed[w].price, feed[w].change24h, if w == Kraken then source else w, now);
      WriteBack(sym, payload);
    }

    /** The write phase: the cache always, a publish when the price moved, a sample when it is due. */
    method WriteBack(sym: string, p: Payload)
      modifies this
      ensures Contents() == Store(cfg, old(Contents()), sym, p)
    {
      hide Capped, Put;
      cache := cache[sym := p];
      if !(sym in lastPublishedPrice.at && lastPublishedPrice.at[sym] == p.price) {
        lastPublishedPrice := CapMap(Put(lastPublishedPrice, sym, p.price), cfg.cap);
        published := published[sym := (if sym in published then published[sym] else []) + [p.price]];
      }
      assert Contents() == Publish(cfg, old(Contents()).(cache := cache), sym, p.price);
      var lastHist := if sym in lastHistSampleAt.at then lastHistSampleAt.at[sym] else 0;
      if p.ts - lastHist >= HIST_SAMPLE {
        lastHistSampleAt := CapMap(Put(lastHistSampleAt, sym, p.ts), cfg.cap);
        var points := if sym in history && p.ts < history[sym].until then history[sym].points else [];
        history := history[sym := Series(Trim([Sample(p.ts, p.price)] + points), p.ts + HIST_TTL)];
      }
    }
  }
}
