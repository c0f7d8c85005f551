/**
  What a stream of ticks leaves behind (src/lib/price-resolver.ts): the cached price, the publishes,
  the sampled history, and the two capped maps that gate them.
 */
module PriceFeed {
  import opened Options
  import opened PriceResolver

  // ---------------------------------------------------------------------------------------------
  // Insertion-ordered maps with a cap
  // ---------------------------------------------------------------------------------------------

  /** Keys in the order of their first insertion. */
  datatype Tracked<V> = Tracked(order: seq<string>, at: map<string, V>)

  ghost predicate TrackedOk<V>(m: Tracked<V>) {
    && (forall i, j :: 0 <= i < j < |m.order| ==> m.order[i] != m.order[j])
    && forall k :: k in m.at <==> k in m.order
  }

  function Put<V>(m: Tracked<V>, k: string, v: V): Tracked<V> {
    Tracked(if k in m.at then m.order else m.order + [k], m.at[k := v])
  }

  function KeySet(ks: seq<string>): set<string> { set k | k in ks }

  /** Evicts from the front until the map is within its cap. */
  function Capped<V>(m: Tracked<V>, cap: nat): Tracked<V> {
    if |m.order| <= cap then m
    else
      var n := |m.order| - cap;
      Tracked(m.order[n..], m.at - KeySet(m.order[..n]))
  }

  method CapMap<V>(m: Tracked<V>, cap: nat) returns (r: Tracked<V>)
    ensures r == Capped(m, cap)
  {
    r := m;
    if |m.order| <= cap {
      return;
    }
    var evict, i := |m.order| - cap, 0;
    while i < evict
      invariant 0 <= i <= evict
      invariant r == Tracked(m.order[i..], m.at - KeySet(m.order[..i]))
    {
      assert m.order[..i+1] == m.order[..i] + [m.order[i]];
      r := Tracked(r.order[1..], r.at - {m.order[i]});
      i := i + 1;
    }
  }

  lemma CappedKeepsOk<V>(m: Tracked<V>, cap: nat)
    requires TrackedOk(m)
    ensures TrackedOk(Capped(m, cap)) && |Capped(m, cap).order| <= cap
    ensures forall k :: k in Capped(m, cap).at ==> k in m.at && Capped(m, cap).at[k] == m.at[k]
  {
    if |m.order| > cap {
      var n := |m.order| - cap;
      assert m.order == m.order[..n] + m.order[n..];
    }
  }

  /** Stamping a key and capping never evicts that key, whether it was new or not. */
  lemma StampedKeyStays<V>(m: Tracked<V>, k: string, v: V, cap: nat)
    requires TrackedOk(m) && |m.order| <= cap && cap > 0
    ensures var r := Capped(Put(m, k, v), cap);
            && TrackedOk(r) && |r.order| <= cap && k in r.at && r.at[k] == v
            && forall j :: j in r.at && j != k ==> j in m.at && r.at[j] == m.at[j]
  {
    var p := Put(m, k, v);
    CappedKeepsOk(p, cap);
    if |p.order| > cap {
      assert p.order[..1] == [p.order[0]];
      assert k == p.order[|p.order| - 1];
    }
  }

  // ---------------------------------------------------------------------------------------------
  // One tick
  // ---------------------------------------------------------------------------------------------

  datatype Config = Config(ratio: real, cap: nat)

  datatype Payload = Payload(price: real, change24h: real, source: Exchange, ts: int)
  datatype Sample = Sample(ts: int, price: real)

  /** A history list, newest sample first, and the time its key expires. */
  datatype Series = Series(points: seq<Sample>, until: int)

  /** `published` logs, symbol by symbol, every price that went out to the firehose. */
  datatype State = State(
    ticks: map<(string, Exchange), Tick>, cache: map<string, Payload>, published: map<string, seq<real>>,
    last: Tracked<real>, sampled: Tracked<int>, history: map<string, Series>)

  const EMPTY := State(map[], map[], map[], Tracked([], map[]), Tracked([], map[]), map[])

  /** A tick as it arrives; a price or change that is not a finite number is absent. */
  datatype Incoming = Incoming(sym: string, e: Exchange, price: Option<real>, change24h: Option<real>, now: int)

  predicate Usable(t: Incoming) { t.price.Some? && t.price.value > 0.0 }

  function PublishedOf(st: State, sym: string): seq<real> {
    if sym in st.published then st.published[sym] else []
  }

  function Publish(cfg: Config, st: State, sym: string, price: real): State {
    if sym in st.last.at && st.last.at[sym] == price then st
    else
      st.(last := Capped(Put(st.last, sym, price), cfg.cap),
          published := st.published[sym := PublishedOf(st, sym) + [price]])
  }

  function SampledAt(st: State, sym: string): int { if sym in st.sampled.at then st.sampled.at[sym] else 0 }

  function PointsOf(st: State, sym: string, now: int): seq<Sample> {
    if sym in st.history && now < st.history[sym].until then st.history[sym].points else []
  }

  function Trim(points: seq<Sample>): seq<Sample> {
    if |points| <= HIST_MAX_POINTS then points else points[..HIST_MAX_POINTS]
  }

  function TakeSample(cfg: Config, st: State, sym: string, price: real, now: int): State {
    if now - SampledAt(st, sym) < HIST_SAMPLE then st
    else
      st.(sampled := Capped(Put(st.sampled, sym, now), cfg.cap),
          history := st.history[sym := Series(Trim([Sample(now, price)] + PointsOf(st, sym, now)), now + HIST_TTL)])
  }

  function Label(feed: Feed, w: Exchange): Exchange { if w == Kraken then KrakenSource(feed) else w }

  /** What a resolved tick writes: always the cache, the rest when their gates open. */
  function Store(cfg: Config, st: State, sym: string, p: Payload): State {
    TakeSample(cfg, Publish(cfg, st.(cache := st.cache[sym := p]), sym, p.price), sym, p.price, p.ts)
  }

  function Resolve(cfg: Config, st: State, sym: string, now: int): State
    requires cfg.ratio > 0.0
  {
    var feed := FreshTicks(st.ticks, sym, now);
    var candidates := Merged(feed);
    if candidates == map[] then st
    else
      var w := Winner(cfg.ratio, candidates);
      Store(cfg, st, sym, Payload(candidates[w].price, candidates[w].change24h, Label(feed, w), now))
  }

  function Ticked(cfg: Config, st: State, t: Incoming): State
    requires cfg.ratio > 0.0
  {
    if !Usable(t) then st
    else
      var ticks := st.ticks[(t.sym, t.e) := Tick(t.price.value, t.change24h.GetOr(0.0), t.now)];
      Resolve(cfg, st.(ticks := ticks), t.sym, t.now)
  }

  function Run(cfg: Config, st: State, ts: seq<Incoming>): State
    requires cfg.ratio > 0.0
    decreases ts
  {
    if ts == [] then st else Run(cfg, Ticked(cfg, st, ts[0]), ts[1..])
  }

  // ---------------------------------------------------------------------------------------------
  // What every run keeps
  // ---------------------------------------------------------------------------------------------

  function Last(xs: seq<real>): real
    requires xs != []
  {
    xs[|xs|-1]
  }

  ghost predicate PublishedLast(st: State, sym: string, price: real) {
    sym in st.published && st.published[sym] != [] && Last(st.published[sym]) == price
  }

  ghost predicate Bounded(cfg: Config, st: State) {
    && TrackedOk(st.last) && |st.last.order| <= cfg.cap
    && TrackedOk(st.sampled) && |st.sampled.order| <= cfg.cap
    && forall sym :: sym in st.history ==> |st.history[sym].points| <= HIST_MAX_POINTS
  }

  /** The cached price is the one published last, and it is a real tick of the source it names. */
  ghost predicate Coherent(st: State) {
    && (forall sym :: sym in st.last.at ==> PublishedLast(st, sym, st.last.at[sym]))
    && (forall sym :: sym in st.cache ==> PublishedLast(st, sym, st.cache[sym].price) && Honest(st, sym))
    && (forall sym :: sym in st.published ==> sym in st.cache)
  }

  ghost predicate Honest(st: State, sym: string)
    requires sym in st.cache
  {
    var p := st.cache[sym];
    && (sym, p.source) in st.ticks
    && st.ticks[(sym, p.source)].price == p.price && IsFresh(st.ticks[(sym, p.source)], p.ts)
  }

  lemma MergedIsFresh(feed: Feed, w: Exchange)
    requires w in Merged(feed)
    ensures w != KrakenBbo && Label(feed, w) in feed && Merged(feed)[w] == feed[Label(feed, w)]
  {
  }

  /** The price a tick resolves to is a fresh tick of the symbol, under its own source's name. */
  lemma ResolvedFrom(cfg: Config, ticks: map<(string, Exchange), Tick>, sym: string, now: int)
    requires cfg.ratio > 0.0 && Merged(FreshTicks(ticks, sym, now)) != map[]
    ensures var feed := FreshTicks(ticks, sym, now);
            var w := Winner(cfg.ratio, Merged(feed));
            var source := Label(feed, w);
            && (sym, source) in ticks && IsFresh(ticks[(sym, source)], now)
            && Merged(feed)[w] == ticks[(sym, source)]
  {
    hide FreshTicks, Winner, Merged, Label;
    var feed := FreshTicks(ticks, sym, now);
    var w := Winner(cfg.ratio, Merged(feed));
    MergedIsFresh(feed, w);
    ExpiryIsInvisible(ticks, sym, now, Label(feed, w));
  }

  /** A usable tick always resolves: it is itself fresh. */
  lemma OwnTickIsFresh(ticks: map<(string, Exchange), Tick>, sym: string, e: Exchange, now: int)
    requires (sym, e) in ticks && ticks[(sym, e)].ts == now
    ensures Merged(FreshTicks(ticks, sym, now)) != map[]
  {
    hide FreshTicks;
    ExpiryIsInvisible(ticks, sym, now, e);
    var feed := FreshTicks(ticks, sym, now);
    assert (if e == KrakenBbo then Kraken else e) in Merged(feed);
  }

  function Recorded(st: State, t: Incoming): State
    requires Usable(t)
  {
    st.(ticks := st.ticks[(t.sym, t.e) := Tick(t.price.value, t.change24h.GetOr(0.0), t.now)])
  }

  /** A payload that may be stored for the tick: a fresh tick of the symbol, from the source it names. */
  ghost predicate Authentic(st: State, sym: string, p: Payload) {
    && (sym, p.source) in st.ticks
    && st.ticks[(sym, p.source)].price == p.price && IsFresh(st.ticks[(sym, p.source)], p.ts)
  }

  lemma TickStores(cfg: Config, st: State, t: Incoming) returns (p: Payload)
    requires cfg.ratio > 0.0 && Usable(t)
    ensures Ticked(cfg, st, t) == Store(cfg, Recorded(st, t), t.sym, p)
    ensures p.ts == t.now && Authentic(Recorded(st, t), t.sym, p)
  {
    hide FreshTicks, Winner, Merged, Label, Store;
    var ticks := Recorded(st, t).ticks;
    OwnTickIsFresh(ticks, t.sym, t.e, t.now);
    ResolvedFrom(cfg, ticks, t.sym, t.now);
    var feed := FreshTicks(ticks, t.sym, t.now);
    var w := Winner(cfg.ratio, Merged(feed));
    p := Payload(Merged(feed)[w].price, Merged(feed)[w].change24h, Label(feed, w), t.now);
  }

  /** The canonical price as the source describes it, from the fresh ticks of a symbol. */
  ghost predicate Canonical(cfg: Config, feed: Feed, p: Payload)
    requires cfg.ratio > 0.0
  {
    var merged := Merged(feed);
    var venue := if p.source == KrakenBbo then Kraken else p.source;
    && p.source in feed && p.price == feed[p.source].price && p.change24h == feed[p.source].change24h
    && (venue == Kraken ==> SpeaksForKraken(feed, p.source))
    && Prices(merged) != []
    && exists i :: 0 <= i < 7 && FIRST_TO_LAST[i] == venue && FirstInPool(cfg, merged, i)
  }

  ghost predicate FirstInPool(cfg: Config, merged: Feed, i: nat)
    requires cfg.ratio > 0.0 && Prices(merged) != [] && i < 7
  {
    && FIRST_TO_LAST[i] in Pool(cfg.ratio, merged)
    && forall k :: 0 <= k < i ==> FIRST_TO_LAST[k] !in Pool(cfg.ratio, merged)
  }

  /** What a usable tick caches is the first source of the pool of its symbol's fresh ticks, itself included. */
  lemma CachedIsCanonical(cfg: Config, st: State, t: Incoming)
    requires cfg.ratio > 0.0 && Usable(t)
    ensures var r, ticks := Ticked(cfg, st, t), Recorded(st, t).ticks;
            var feed := FreshTicks(ticks, t.sym, t.now);
            && (forall e :: e in feed <==> (t.sym, e) in ticks && t.now - ticks[(t.sym, e)].ts <= 15000)
            && (forall e :: e in feed ==> feed[e] == ticks[(t.sym, e)])
            && t.sym in r.cache && r.cache[t.sym].ts == t.now && Canonical(cfg, feed, r.cache[t.sym])
  {
    hide FreshTicks, Winner, Merged, Publish, TakeSample, Pool, Prices, SpeaksForKraken, FIRST_TO_LAST, KrakenSource;
    var ticks := Recorded(st, t).ticks;
    OwnTickIsFresh(ticks, t.sym, t.e, t.now);
    var feed := FreshTicks(ticks, t.sym, t.now);
    var w := Winner(cfg.ratio, Merged(feed));
    MergedSpeaks(feed);
    var i := WinnerIsFirst(cfg.ratio, Merged(feed));
    assert FirstInPool(cfg, Merged(feed), i);
    ResolvedIsStored(cfg, Recorded(st, t), t.sym, t.now);
    MergedIsFresh(feed, w);
    SourceNames(feed, w);
    forall e ensures e in feed <==> (t.sym, e) in ticks && t.now - ticks[(t.sym, e)].ts <= 15000
      ensures e in feed ==> feed[e] == ticks[(t.sym, e)]
    {
      ExpiryIsInvisible(ticks, t.sym, t.now, e);
    }
  }

  lemma ResolvedIsStored(cfg: Config, st: State, sym: string, now: int)
    requires cfg.ratio > 0.0 && Merged(FreshTicks(st.ticks, sym, now)) != map[]
    ensures var feed := FreshTicks(st.ticks, sym, now);
            var w := Winner(cfg.ratio, Merged(feed));
            var r := Resolve(cfg, st, sym, now);
            && sym in r.cache
            && r.cache[sym] == Payload(Merged(feed)[w].price, Merged(feed)[w].change24h, Label(feed, w), now)
  {
    hide FreshTicks, Winner, Merged, Label;
  }

  lemma SourceNames(feed: Feed, w: Exchange)
    requires w in Merged(feed)
    ensures w == if Label(feed, w) == KrakenBbo then Kraken else Label(feed, w)
  {
  }

  lemma PublishKeeps(cfg: Config, st: State, sym: string, price: real)
    requires cfg.cap > 0 && TrackedOk(st.last) && |st.last.order| <= cfg.cap
    requires forall s :: s in st.last.at ==> PublishedLast(st, s, st.last.at[s])
    ensures var r := Publish(cfg, st, sym, price);
            && TrackedOk(r.last) && |r.last.order| <= cfg.cap
            && (forall s :: s in r.last.at ==> PublishedLast(r, s, r.last.at[s]))
            && (sym in r.last.at && r.last.at[sym] == price)
            && r.published.Keys == st.published.Keys + {sym}
            && (forall s :: s in st.published && s != sym ==> r.published[s] == st.published[s])
            && r == st.(last := r.last, published := r.published)
  {
    hide Put, Capped, TrackedOk;
    StampedKeyStays(st.last, sym, price, cfg.cap);
  }

  lemma SampleKeeps(cfg: Config, st: State, sym: string, price: real, now: int)
    requires cfg.cap > 0 && TrackedOk(st.sampled) && |st.sampled.order| <= cfg.cap
    requires forall s :: s in st.history ==> |st.history[s].points| <= HIST_MAX_POINTS
    ensures var r := TakeSample(cfg, st, sym, price, now);
            && TrackedOk(r.sampled) && |r.sampled.order| <= cfg.cap
            && (forall s :: s in r.history ==> |r.history[s].points| <= HIST_MAX_POINTS)
            && r == st.(sampled := r.sampled, history := r.history)
  {
    hide Put, Capped, TrackedOk;
    StampedKeyStays(st.sampled, sym, now, cfg.cap);
  }

  lemma StoreKeeps(cfg: Config, st: State, sym: string, p: Payload)
    requires cfg.cap > 0 && Bounded(cfg, st) && Authentic(st, sym, p)
    requires forall s :: s in st.last.at ==> PublishedLast(st, s, st.last.at[s])
    requires forall s :: s in st.cache && s != sym ==> PublishedLast(st, s, st.cache[s].price) && Honest(st, s)
    requires forall s :: s in st.published ==> s in st.cache
    ensures var r := Store(cfg, st, sym, p);
            && Bounded(cfg, r) && Coherent(r)
            && sym in r.cache && r.cache[sym] == p && sym in r.last.at && r.last.at[sym] == p.price
  {
    hide Publish, TakeSample, TrackedOk, Last;
    var st1 := st.(cache := st.cache[sym := p]);
    PublishKeeps(cfg, st1, sym, p.price);
    SampleKeeps(cfg, Publish(cfg, st1, sym, p.price), sym, p.price, p.ts);
  }

  /** After a usable tick the cached price is the last published one, on record and authentic. */
  lemma TickKeeps(cfg: Config, st: State, t: Incoming)
    requires cfg.ratio > 0.0 && cfg.cap > 0 && Bounded(cfg, st) && Coherent(st)
    ensures var r := Ticked(cfg, st, t);
            && Bounded(cfg, r) && Coherent(r)
            && (Usable(t) ==> t.sym in r.cache && r.cache[t.sym].ts == t.now)
            && (Usable(t) ==> t.sym in r.last.at && r.last.at[t.sym] == r.cache[t.sym].price)
  {
    hide Resolve, Store, TrackedOk, Last;
    if Usable(t) {
      var p := TickStores(cfg, st, t);
      StoreKeeps(cfg, Recorded(st, t), t.sym, p);
    }
  }

  /**
    A usable tick adds a sample of the cached price exactly when three minutes have passed since the last
    one on record; the newest 480 samples stay, for a day.
   */
  lemma SampleIsCached(cfg: Config, st: State, t: Incoming)
    requires cfg.ratio > 0.0 && Usable(t)
    ensures var r, due := Ticked(cfg, st, t), t.now - SampledAt(st, t.sym) >= 180000;
            && t.sym in r.cache && (!due ==> r.history == st.history)
            && (due ==> t.sym in r.history && r.history[t.sym].until == t.now + 86400000)
            && (due ==> r.history[t.sym].points == Newest([Sample(t.now, r.cache[t.sym].price)] + PointsOf(st, t.sym, t.now)))
            && forall s :: s != t.sym ==>
                 (s in r.history <==> s in st.history) && (s in st.history ==> r.history[s] == st.history[s])
  {
    hide Resolve, Put, Capped;
    var p := TickStores(cfg, st, t);
  }

  function Newest(points: seq<Sample>): seq<Sample> { points[..if |points| < 480 then |points| else 480] }

  /** Over every stream of ticks, with any symbols, prices and clock. */
  lemma {:induction false} RunKeeps(cfg: Config, st: State, ts: seq<Incoming>)
    requires cfg.ratio > 0.0 && cfg.cap > 0 && Bounded(cfg, st) && Coherent(st)
    ensures Bounded(cfg, Run(cfg, st, ts)) && Coherent(Run(cfg, st, ts))
    decreases ts
  {
    hide Bounded, Coherent, Ticked;
    if ts != [] {
      TickKeeps(cfg, st, ts[0]);
      RunKeeps(cfg, Ticked(cfg, st, ts[0]), ts[1..]);
    }
  }

  lemma EveryRunIsCoherent(cfg: Config, ts: seq<Incoming>)
    requires cfg.ratio > 0.0 && cfg.cap > 0
    ensures Bounded(cfg, Run(cfg, EMPTY, ts)) && Coherent(Run(cfg, EMPTY, ts))
  {
    RunKeeps(cfg, EMPTY, ts);
  }

  // ---------------------------------------------------------------------------------------------
  // The dedupe and the sampling gate hold exactly while nothing is evicted
  // ---------------------------------------------------------------------------------------------

  predicate NoRepeats(xs: seq<real>) { forall i :: 0 <= i < |xs| - 1 ==> xs[i] != xs[i+1] }

  predicate Spaced(points: seq<Sample>) {
    forall i :: 0 <= i < |points| - 1 ==> points[i].ts - points[i+1].ts >= HIST_SAMPLE
  }

  predicate Deduped(st: State) { forall sym :: sym in st.published ==> NoRepeats(st.published[sym]) }

  predicate Sparse(st: State) { forall sym :: sym in st.history ==> Spaced(st.history[sym].points) }

  /** A stream over the given symbols whose clock never goes back. */
  predicate Over(symbols: set<string>, ts: seq<Incoming>) { forall i :: 0 <= i < |ts| ==> ts[i].sym in symbols }

  predicate Forward(ts: seq<Incoming>) { forall i, j :: 0 <= i < j < |ts| ==> ts[i].now <= ts[j].now }

  /** Nothing has been evicted: every published and every sampled symbol is still on record. */
  ghost predicate Complete(st: State, symbols: set<string>) {
    && TrackedOk(st.last) && KeySet(st.last.order) <= symbols
    && TrackedOk(st.sampled) && KeySet(st.sampled.order) <= symbols
    && (forall sym :: sym in st.published ==>
        sym in st.last.at && PublishedLast(st, sym, st.last.at[sym]) && NoRepeats(st.published[sym]))
    && (forall sym :: sym in st.history ==>
        sym in st.sampled.at && Spaced(st.history[sym].points)
        && st.history[sym].points != [] && st.history[sym].points[0].ts == st.sampled.at[sym])
  }

  lemma {:induction false} DistinctKeys(ks: seq<string>)
    requires forall i, j :: 0 <= i < j < |ks| ==> ks[i] != ks[j]
    ensures |KeySet(ks)| == |ks|
  {
    if ks != [] {
      DistinctKeys(ks[1..]);
      assert ks == [ks[0]] + ks[1..];
      assert KeySet(ks) == {ks[0]} + KeySet(ks[1..]);
    }
  }

  lemma FitsWithoutEviction<V>(m: Tracked<V>, k: string, v: V, symbols: set<string>, cap: nat)
    requires TrackedOk(m) && KeySet(m.order) <= symbols && k in symbols && |symbols| <= cap
    ensures Capped(Put(m, k, v), cap) == Put(m, k, v)
    ensures TrackedOk(Put(m, k, v)) && KeySet(Put(m, k, v).order) <= symbols
  {
    var p := Put(m, k, v);
    DistinctKeys(p.order);
    assert KeySet(p.order) <= symbols;
    assert symbols == KeySet(p.order) + (symbols - KeySet(p.order));
  }

  /** Every sample on record was taken by now. */
  ghost predicate SampledBy(st: State, now: int) { forall sym :: sym in st.sampled.at ==> st.sampled.at[sym] <= now }

  lemma PublishStaysComplete(cfg: Config, st: State, symbols: set<string>, sym: string, price: real)
    requires Complete(st, symbols) && sym in symbols && |symbols| <= cfg.cap
    ensures Complete(Publish(cfg, st, sym, price), symbols)
  {
    hide Capped, TrackedOk;
    FitsWithoutEviction(st.last, sym, price, symbols, cfg.cap);
  }

  lemma NewSampleSpaced(points: seq<Sample>, x: Sample)
    requires points == [] || (Spaced(points) && x.ts - points[0].ts >= HIST_SAMPLE)
    ensures var r := Trim([x] + points); Spaced(r) && r != [] && r[0] == x
  {
  }

  lemma SampleStaysComplete(cfg: Config, st: State, symbols: set<string>, sym: string, price: real, now: int)
    requires Complete(st, symbols) && sym in symbols && |symbols| <= cfg.cap && SampledBy(st, now)
    ensures Complete(TakeSample(cfg, st, sym, price, now), symbols) && SampledBy(TakeSample(cfg, st, sym, price, now), now)
  {
    hide Capped, TrackedOk, Trim, Spaced, NoRepeats;
    FitsWithoutEviction(st.sampled, sym, now, symbols, cfg.cap);
    if now - SampledAt(st, sym) >= HIST_SAMPLE {
      NewSampleSpaced(PointsOf(st, sym, now), Sample(now, price));
    }
  }

  lemma TickStaysComplete(cfg: Config, st: State, symbols: set<string>, t: Incoming)
    requires cfg.ratio > 0.0 && Complete(st, symbols) && t.sym in symbols && |symbols| <= cfg.cap && SampledBy(st, t.now)
    ensures Complete(Ticked(cfg, st, t), symbols) && SampledBy(Ticked(cfg, st, t), t.now)
  {
    hide Resolve, Publish, TakeSample;
    if Usable(t) {
      var p := TickStores(cfg, st, t);
      var st1 := Recorded(st, t).(cache := st.cache[t.sym := p]);
      PublishStaysComplete(cfg, st1, symbols, t.sym, p.price);
      PublishOnly(cfg, st1, t.sym, p.price);
      SampleStaysComplete(cfg, Publish(cfg, st1, t.sym, p.price), symbols, t.sym, p.price, p.ts);
    }
  }

  lemma PublishOnly(cfg: Config, st: State, sym: string, price: real)
    ensures Publish(cfg, st, sym, price).sampled == st.sampled
  {
  }

  lemma {:induction false} RunStaysComplete(cfg: Config, st: State, symbols: set<string>, ts: seq<Incoming>)
    requires cfg.ratio > 0.0 && Complete(st, symbols) && |symbols| <= cfg.cap
    requires Over(symbols, ts) && Forward(ts) && (ts != [] ==> SampledBy(st, ts[0].now))
    ensures Complete(Run(cfg, st, ts), symbols)
    decreases ts
  {
    hide Complete, Ticked;
    if ts != [] {
      TickStaysComplete(cfg, st, symbols, ts[0]);
      RunStaysComplete(cfg, Ticked(cfg, st, ts[0]), symbols, ts[1..]);
    }
  }

  ghost predicate GatesHold(cfg: Config, symbols: set<string>)
    requires cfg.ratio > 0.0
  {
    forall ts :: Over(symbols, ts) && Forward(ts) ==> Deduped(Run(cfg, EMPTY, ts)) && Sparse(Run(cfg, EMPTY, ts))
  }

  lemma GatesHoldWithinCap(cfg: Config, symbols: set<string>)
    requires cfg.ratio > 0.0 && |symbols| <= cfg.cap
    ensures GatesHold(cfg, symbols)
  {
    forall ts | Over(symbols, ts) && Forward(ts)
      ensures Deduped(Run(cfg, EMPTY, ts)) && Sparse(Run(cfg, EMPTY, ts))
    {
      RunStaysComplete(cfg, EMPTY, symbols, ts);
    }
  }

  // One more symbol than the cap, and the first one is published and sampled twice in a row.

  function Probe(sym: string): Incoming { Incoming(sym, Binance, Some(1.0), None, HIST_SAMPLE) }

  function Probes(syms: seq<string>): seq<Incoming> {
    seq(|syms|, i requires 0 <= i < |syms| => Probe(syms[i]))
  }

  /** Every tick so far was a probe; `syms` are tracked and the first of them was published once. */
  ghost predicate Probed(st: State, syms: seq<string>) {
    && (forall k :: k in st.ticks ==> st.ticks[k].price == 1.0)
    && TrackedOk(st.last) && st.last.order == syms
    && TrackedOk(st.sampled) && st.sampled.order == syms
  }

  ghost predicate SeenOnce(st: State, sym: string) {
    && PublishedOf(st, sym) == [1.0]
    && PointsOf(st, sym, HIST_SAMPLE) == [Sample(HIST_SAMPLE, 1.0)]
  }

  lemma ProbeStores(cfg: Config, st: State, sym: string) returns (p: Payload)
    requires cfg.ratio > 0.0 && forall k :: k in st.ticks ==> st.ticks[k].price == 1.0
    ensures Ticked(cfg, st, Probe(sym)) == Store(cfg, Recorded(st, Probe(sym)), sym, p)
    ensures p.ts == HIST_SAMPLE && p.price == 1.0
  {
    p := TickStores(cfg, st, Probe(sym));
  }

  /** A probe of a symbol that is not on record publishes and samples it. */
  lemma ProbeNew(cfg: Config, st: State, syms: seq<string>, sym: string)
    requires cfg.ratio > 0.0 && Probed(st, syms) && sym !in syms
    ensures var r := Ticked(cfg, st, Probe(sym));
            && r.last == Capped(Put(st.last, sym, 1.0), cfg.cap)
            && r.sampled == Capped(Put(st.sampled, sym, HIST_SAMPLE), cfg.cap)
            && r.published == st.published[sym := PublishedOf(st, sym) + [1.0]]
            && r.history == st.history[sym := Series(Trim([Sample(HIST_SAMPLE, 1.0)] + PointsOf(st, sym, HIST_SAMPLE)),
                                                     HIST_SAMPLE + HIST_TTL)]
            && forall k :: k in r.ticks ==> r.ticks[k].price == 1.0
  {
    hide Ticked, Capped, Put;
    var p := ProbeStores(cfg, st, sym);
  }

  lemma {:induction false} RunAppend(cfg: Config, st: State, ts: seq<Incoming>, t: Incoming)
    requires cfg.ratio > 0.0
    ensures Run(cfg, st, ts + [t]) == Ticked(cfg, Run(cfg, st, ts), t)
    decreases ts
  {
    if ts == [] {
      assert ts + [t] == [t];
      assert Run(cfg, st, [t]) == Run(cfg, Ticked(cfg, st, t), [t][1..]);
    } else {
      assert (ts + [t])[1..] == ts[1..] + [t];
      RunAppend(cfg, Ticked(cfg, st, ts[0]), ts[1..], t);
    }
  }

  predicate DistinctSymbols(syms: seq<string>) { forall i, j :: 0 <= i < j < |syms| ==> syms[i] != syms[j] }

  /** While they fit, probed symbols pile up on record. */
  lemma ProbeFits(cfg: Config, st: State, syms: seq<string>, sym: string)
    requires cfg.ratio > 0.0 && Probed(st, syms) && sym !in syms && |syms| < cfg.cap
    ensures Probed(Ticked(cfg, st, Probe(sym)), syms + [sym])
  {
    hide Ticked;
    ProbeNew(cfg, st, syms, sym);
  }

  lemma ProbeSeen(cfg: Config, st: State, syms: seq<string>, sym: string, first: string)
    requires cfg.ratio > 0.0 && Probed(st, syms) && sym !in syms
    requires if sym == first then first !in st.published && first !in st.history else SeenOnce(st, first)
    ensures SeenOnce(Ticked(cfg, st, Probe(sym)), first)
  {
    hide Ticked;
    ProbeNew(cfg, st, syms, sym);
  }

  lemma NothingProbed()
    ensures Probed(EMPTY, []) && EMPTY.published == map[] && EMPTY.history == map[]
  {
  }

  lemma {:induction false} ProbeAll(cfg: Config, syms: seq<string>, n: nat)
    requires cfg.ratio > 0.0 && DistinctSymbols(syms) && n <= |syms| && n <= cfg.cap
    ensures Probed(Run(cfg, EMPTY, Probes(syms[..n])), syms[..n])
    ensures n > 0 ==> SeenOnce(Run(cfg, EMPTY, Probes(syms[..n])), syms[0])
  {
    hide Ticked, SeenOnce, Probed;
    if n == 0 {
      assert Run(cfg, EMPTY, Probes(syms[..0])) == EMPTY;
      NothingProbed();
    } else {
      ProbeAll(cfg, syms, n - 1);
      var st := Run(cfg, EMPTY, Probes(syms[..n-1]));
      assert Probes(syms[..n]) == Probes(syms[..n-1]) + [Probe(syms[n-1])];
      RunAppend(cfg, EMPTY, Probes(syms[..n-1]), Probe(syms[n-1]));
      ProbeFits(cfg, st, syms[..n-1], syms[n-1]);
      assert syms[..n] == syms[..n-1] + [syms[n-1]];
      if n == 1 {
        assert st == EMPTY;
      }
      ProbeSeen(cfg, st, syms[..n-1], syms[n-1], syms[0]);
    }
  }

  lemma FullEvictsFirst<V>(m: Tracked<V>, syms: seq<string>, v: V, cap: nat)
    requires TrackedOk(m) && DistinctSymbols(syms) && |syms| == cap + 1 && m.order == syms[..cap]
    ensures var r := Capped(Put(m, syms[cap], v), cap); TrackedOk(r) && r.order == syms[1..]
  {
    assert syms == syms[..cap] + [syms[cap]];
    CappedKeepsOk(Put(m, syms[cap], v), cap);
  }

  lemma ProbeEvicts(cfg: Config, st: State, syms: seq<string>)
    requires cfg.ratio > 0.0 && DistinctSymbols(syms) && |syms| == cfg.cap + 1
    requires Probed(st, syms[..cfg.cap])
    ensures Probed(Ticked(cfg, st, Probe(syms[cfg.cap])), syms[1..])
  {
    hide Ticked, TrackedOk, Capped, Put;
    ProbeNew(cfg, st, syms[..cfg.cap], syms[cfg.cap]);
    FullEvictsFirst(st.last, syms, 1.0, cfg.cap);
    FullEvictsFirst(st.sampled, syms, HIST_SAMPLE, cfg.cap);
  }

  lemma ProbeAgain(cfg: Config, st: State, syms: seq<string>, sym: string)
    requires cfg.ratio > 0.0 && Probed(st, syms) && sym !in syms && SeenOnce(st, sym)
    ensures var r := Ticked(cfg, st, Probe(sym)); !Deduped(r) && !Sparse(r)
  {
    hide Ticked;
    ProbeNew(cfg, st, syms, sym);
    var r := Ticked(cfg, st, Probe(sym));
    var out, points := r.published[sym], r.history[sym].points;
    assert out == [1.0] + [1.0] && out[0] == out[0 + 1];
    assert points == [Sample(HIST_SAMPLE, 1.0)] + [Sample(HIST_SAMPLE, 1.0)];
    assert points[0].ts - points[0 + 1].ts < HIST_SAMPLE;
  }

  lemma {:induction false} PickSymbols(symbols: set<string>, n: nat) returns (syms: seq<string>)
    requires n <= |symbols|
    ensures |syms| == n && DistinctSymbols(syms) && forall k :: k in syms ==> k in symbols
    decreases n
  {
    if n == 0 {
      syms := [];
    } else {
      var k :| k in symbols;
      var rest := PickSymbols(symbols - {k}, n - 1);
      syms := [k] + rest;
    }
  }

  /** The run that republishes and resamples an evicted symbol. */
  lemma EvictionBreaksGates(cfg: Config, symbols: set<string>)
    requires cfg.ratio > 0.0 && |symbols| > cfg.cap
    ensures !GatesHold(cfg, symbols)
  {
    hide Ticked, Deduped, Sparse, SeenOnce, Probed;
    var syms := PickSymbols(symbols, cfg.cap + 1);
    var before := Probes(syms[..cfg.cap]);
    var st := Run(cfg, EMPTY, before);
    var last := syms[cfg.cap];
    ProbeAll(cfg, syms, cfg.cap);
    if cfg.cap == 0 {
      assert st == EMPTY;
    }
    ProbeSeen(cfg, st, syms[..cfg.cap], last, syms[0]);
    ProbeEvicts(cfg, st, syms);
    ProbeAgain(cfg, Ticked(cfg, st, Probe(last)), syms[1..], syms[0]);
    RunAppend(cfg, EMPTY, before, Probe(last));
    RunAppend(cfg, EMPTY, before + [Probe(last)], Probe(syms[0]));
    var ts := before + [Probe(last)] + [Probe(syms[0])];
    assert Over(symbols, ts) && Forward(ts);
  }

  /**
    No price is published twice in a row and samples are three minutes apart, on every forward stream
    over the symbols, exactly when the symbols fit the cap.
   */
  lemma GatesHoldIffWithinCap(cfg: Config, symbols: set<string>)
    requires cfg.ratio > 0.0
    ensures GatesHold(cfg, symbols) <==> |symbols| <= cfg.cap
  {
    if |symbols| <= cfg.cap {
      GatesHoldWithinCap(cfg, symbols);
    } else {
      EvictionBreaksGates(cfg, symbols);
    }
  }
}
