/**
  The two all-time profit measures of a portfolio (src/modules/portfolios/derive.ts and
  portfolios.dto.ts): value minus net deposit, and unrealized plus realized gain.
 */
module Derive {
  import opened Options
  import opened Recalc
  import opened Totals
  import opened Ledger

  datatype Derived = Derived(
    totalValue: real, pnlAllTime: Option<real>, pnlAllTimeValue: Option<real>,
    unrealized: real, unrealizedPct: real, realized: real, allTime: real, costBasisTotal: real)

  /** Live price of a symbol, or the stored one. */
  type Prices = string -> real

  function Value(a: Asset, price: real): real { a.p.balance * price }

  function Unrealized(a: Asset, price: real): real {
    if a.p.avgCost.Some? then a.p.balance * (price - a.p.avgCost.value) else 0.0
  }

  function TrackedCost(a: Asset): real { if a.p.avgCost.Some? then a.p.costBasis else 0.0 }

  function Values(assets: map<string, Asset>, price: Prices): map<string, real> {
    map s | s in assets :: Value(assets[s], price(s))
  }

  function Unrealizeds(assets: map<string, Asset>, price: Prices): map<string, real> {
    map s | s in assets :: Unrealized(assets[s], price(s))
  }

  function Realizeds(assets: map<string, Asset>): map<string, real> { map s | s in assets :: assets[s].p.realizedPnl }

  function TrackedCosts(assets: map<string, Asset>): map<string, real> { map s | s in assets :: TrackedCost(assets[s]) }

  function Percent(x: real, base: real): real { if base != 0.0 then x / base * 100.0 else 0.0 }

  datatype Tally = Tally(value: real, unrealized: real, cost: real, realized: real)

  /** The reported fields for the four sums. */
  function Report(t: Tally, tracked: bool, kind: PortfolioKind, netDeposit: real): Derived {
    if kind == Connected && !(tracked || t.realized != 0.0) then Derived(t.value, None, None, 0.0, 0.0, 0.0, 0.0, 0.0)
    else
      var own, allTime := t.value - netDeposit, t.unrealized + t.realized;
      Derived(t.value,
              if kind == Connected then None else Some(Percent(own, netDeposit)),
              Some(if kind == Connected then allTime else own),
              t.unrealized, Percent(t.unrealized, t.cost), t.realized, allTime, t.cost)
  }

  /** The four sums over a portfolio's assets. */
  ghost function Sums(assets: map<string, Asset>, price: Prices): Tally {
    Tally(Total(Values(assets, price)), Total(Unrealizeds(assets, price)),
          Total(TrackedCosts(assets)), Total(Realizeds(assets)))
  }

  /** A connected wallet has a cost basis when the provider filled an average cost or a gain. */
  ghost predicate AnyTracked(assets: map<string, Asset>) { exists s :: s in assets && assets[s].p.avgCost.Some? }

  /** The derived fields of a portfolio, whatever the order of its assets. */
  ghost function Derivation(assets: map<string, Asset>, price: Prices, kind: PortfolioKind, netDeposit: real): Derived {
    Report(Sums(assets, price), AnyTracked(assets), kind, netDeposit)
  }

  lemma TakeOne(assets: map<string, Asset>, price: Prices, s: string)
    requires s in assets
    ensures var rest := assets - {s};
            && Total(Values(assets, price)) == Value(assets[s], price(s)) + Total(Values(rest, price))
            && Total(Unrealizeds(assets, price)) == Unrealized(assets[s], price(s)) + Total(Unrealizeds(rest, price))
            && Total(Realizeds(assets)) == assets[s].p.realizedPnl + Total(Realizeds(rest))
            && Total(TrackedCosts(assets)) == TrackedCost(assets[s]) + Total(TrackedCosts(rest))
            && Total(NetDeposits(assets)) == assets[s].p.netDeposit + Total(NetDeposits(rest))
  {
    hide Value, Unrealized, TrackedCost, Total;
    var rest := assets - {s};
    TakeEntry(Values(assets, price), Values(rest, price), s);
    TakeEntry(Unrealizeds(assets, price), Unrealizeds(rest, price), s);
    TakeEntry(Realizeds(assets), Realizeds(rest), s);
    TakeEntry(TrackedCosts(assets), TrackedCosts(rest), s);
    TakeEntry(NetDeposits(assets), NetDeposits(rest), s);
  }

  ghost function Plus(t: Tally, u: Tally): Tally {
    Tally(t.value + u.value, t.unrealized + u.unrealized, t.cost + u.cost, t.realized + u.realized)
  }

  function Contribution(a: Asset, price: real): Tally {
    Tally(Value(a, price), Unrealized(a, price), TrackedCost(a), a.p.realizedPnl)
  }

  lemma TallyOne(t: Tally, rest: map<string, Asset>, price: Prices, s: string)
    requires s in rest
    ensures Plus(t, Sums(rest, price)) == Plus(Plus(t, Contribution(rest[s], price(s))), Sums(rest - {s}, price))
  {
    hide Value, Unrealized, TrackedCost, Total, Values, Unrealizeds, TrackedCosts, Realizeds, NetDeposits;
    TakeOne(rest, price, s);
  }

  lemma TallyNone(price: Prices)
    ensures Sums(map[], price) == Tally(0.0, 0.0, 0.0, 0.0) && !AnyTracked(map[])
  {
    TotalNone(Values(map[], price));
    TotalNone(Unrealizeds(map[], price));
    TotalNone(TrackedCosts(map[]));
    TotalNone(Realizeds(map[]));
  }

  lemma TrackedOrRest(rest: map<string, Asset>, s: string)
    requires s in rest
    ensures AnyTracked(rest) <==> rest[s].p.avgCost.Some? || AnyTracked(rest - {s})
  {
    if AnyTracked(rest) && rest[s].p.avgCost.None? {
      var x :| x in rest && rest[x].p.avgCost.Some?;
      assert x in rest - {s};
    }
  }

  /** The accumulation over the portfolio's assets. */
  method TallyAssets(assets: map<string, Asset>, price: Prices) returns (t: Tally, tracked: bool)
    ensures t == Sums(assets, price) && (tracked <==> AnyTracked(assets))
  {
    hide Sums, AnyTracked;
    t, tracked := Tally(0.0, 0.0, 0.0, 0.0), false;
    var rest := assets;
    while rest != map[]
      invariant Plus(t, Sums(rest, price)) == Sums(assets, price)
      invariant AnyTracked(assets) <==> tracked || AnyTracked(rest)
      decreases |rest|
    {
      var s :| s in rest;
      var a := rest[s];
      TallyOne(t, rest, price, s);
      TrackedOrRest(rest, s);
      t := t.(value := t.value + a.p.balance * price(s), realized := t.realized + a.p.realizedPnl);
      if a.p.avgCost.Some? {
        t := t.(unrealized := t.unrealized + a.p.balance * (price(s) - a.p.avgCost.value),
                cost := t.cost + a.p.costBasis);
        tracked := true;
      }
      rest := rest - {s};
    }
    TallyNone(price);
  }

  /** The derived fields of a portfolio as the read path computes them. */
  method ComputeFromDb(assets: map<string, Asset>, price: Prices, kind: PortfolioKind, netDeposit: real)
    returns (d: Derived)
    ensures d == Derivation(assets, price, kind, netDeposit)
  {
    hide Sums;
    var t, tracked := TallyAssets(assets, price);
    if kind == Connected && !(tracked || t.realized != 0.0) {
      return Derived(t.value, None, None, 0.0, 0.0, 0.0, 0.0, 0.0);
    }
    var allTime := t.unrealized + t.realized;
    var pnlAllTimeValue, pnlAllTime := allTime, None;
    if kind == Manual {
      pnlAllTimeValue := t.value - netDeposit;
      pnlAllTime := Some(Percent(pnlAllTimeValue, netDeposit));
    }
    d := Derived(t.value, pnlAllTime, Some(pnlAllTimeValue), t.unrealized, Percent(t.unrealized, t.cost),
                 t.realized, allTime, t.cost);
  }

  // ---------------------------------------------------------------------------------------------
  // When the two measures agree
  // ---------------------------------------------------------------------------------------------

  /** The part of an asset's gap that does not depend on its price. */
  function FixedGap(a: Asset): real {
    (if a.p.avgCost.Some? then a.p.balance * a.p.avgCost.value else 0.0) - a.p.netDeposit - a.p.realizedPnl
  }

  function Untracked(a: Asset): real { if a.p.avgCost.Some? then 0.0 else a.p.balance }

  function FixedGaps(assets: map<string, Asset>): map<string, real> { map s | s in assets :: FixedGap(assets[s]) }

  function UntrackedValues(assets: map<string, Asset>, price: Prices): map<string, real> {
    map s | s in assets :: UntrackedValue(assets[s], price(s))
  }

  /** Value minus deposits, minus unrealized and realized gain. */
  ghost function Gap(assets: map<string, Asset>, price: Prices): real {
    Total(Values(assets, price)) - Total(NetDeposits(assets)) - Total(Unrealizeds(assets, price)) - Total(Realizeds(assets))
  }

  function UntrackedValue(a: Asset, price: real): real { Untracked(a) * price }

  lemma AssetGap(a: Asset, price: real)
    ensures Value(a, price) - a.p.netDeposit - Unrealized(a, price) - a.p.realizedPnl
         == FixedGap(a) + UntrackedValue(a, price)
  {
    if a.p.avgCost.Some? {
      var c := a.p.avgCost.value;
      assert a.p.balance * (price - c) == a.p.balance * price - a.p.balance * c;
    }
  }

  lemma GapStep(assets: map<string, Asset>, price: Prices, s: string)
    requires s in assets
    ensures Gap(assets, price) == Gap(assets - {s}, price) + FixedGap(assets[s]) + UntrackedValue(assets[s], price(s))
  {
    hide Value, Unrealized, FixedGap, UntrackedValue, TrackedCost, Total,
         Values, Unrealizeds, Realizeds, TrackedCosts, NetDeposits;
    TakeOne(assets, price, s);
    AssetGap(assets[s], price(s));
  }

  /** The gap between the measures: a fixed part and the value of the cost-unknown assets. */
  lemma {:induction false} GapSplits(assets: map<string, Asset>, price: Prices)
    ensures Gap(assets, price) == Total(FixedGaps(assets)) + Total(UntrackedValues(assets, price))
    decreases |assets|
  {
    hide Gap, FixedGap, UntrackedValue, Total;
    if assets == map[] {
      NoGap(price);
      TotalNone(FixedGaps(map[]));
      TotalNone(UntrackedValues(map[], price));
    } else {
      var s :| s in assets;
      var rest := assets - {s};
      GapStep(assets, price, s);
      TakeEntry(FixedGaps(assets), FixedGaps(rest), s);
      TakeEntry(UntrackedValues(assets, price), UntrackedValues(rest, price), s);
      GapSplits(rest, price);
    }
  }

  lemma NoGap(price: Prices)
    ensures Gap(map[], price) == 0.0
  {
    TotalNone(Values(map[], price));
    TotalNone(Unrealizeds(map[], price));
    TotalNone(Realizeds(map[]));
    TotalNone(NetDeposits(map[]));
  }

  lemma {:induction false} TotalOfZeros(m: map<string, real>)
    requires forall s :: s in m ==> m[s] == 0.0
    ensures Total(m) == 0.0
    decreases |m|
  {
    if m != map[] {
      var s :| s in m;
      TotalPick(m, s);
      TotalOfZeros(m - {s});
    }
  }

  /** The measures agree whatever the prices. */
  ghost predicate AgreeAtAllPrices(assets: map<string, Asset>) {
    forall price: Prices :: Gap(assets, price) == 0.0
  }

  ghost predicate UntrackedAreEmpty(assets: map<string, Asset>) {
    forall s :: s in assets && assets[s].p.avgCost.None? ==> assets[s].p.balance == 0.0
  }

  /** With a price of 1 for one symbol and 0 for the others, only that symbol's units are seen. */
  lemma PriceOneAsset(assets: map<string, Asset>, one: Prices, s: string)
    requires s in assets && one(s) == 1.0 && forall x :: x != s ==> one(x) == 0.0
    ensures Gap(assets, one) == Total(FixedGaps(assets)) + Untracked(assets[s])
  {
    hide Gap, FixedGap;
    GapSplits(assets, one);
    TotalPick(UntrackedValues(assets, one), s);
    TotalOfZeros(UntrackedValues(assets, one) - {s});
  }

  lemma EmptyUntrackedGap(assets: map<string, Asset>, price: Prices)
    requires UntrackedAreEmpty(assets) || forall s :: price(s) == 0.0
    ensures Gap(assets, price) == Total(FixedGaps(assets))
  {
    hide Gap, FixedGap;
    GapSplits(assets, price);
    TotalOfZeros(UntrackedValues(assets, price));
  }

  /**
    The measures agree at every price exactly when no cost-unknown asset holds units and the fixed
    parts cancel.
   */
  lemma AgreeIff(assets: map<string, Asset>)
    ensures AgreeAtAllPrices(assets) <==> UntrackedAreEmpty(assets) && Total(FixedGaps(assets)) == 0.0
  {
    hide Gap, FixedGaps, Total;
    if AgreeAtAllPrices(assets) {
      var zero: Prices := (s: string) => 0.0;
      EmptyUntrackedGap(assets, zero);
      assert Gap(assets, zero) == 0.0;
      forall s | s in assets && assets[s].p.avgCost.None? ensures assets[s].p.balance == 0.0 {
        var one: Prices := (x: string) => if x == s then 1.0 else 0.0;
        PriceOneAsset(assets, one, s);
        assert Gap(assets, one) == 0.0;
      }
    }
    if UntrackedAreEmpty(assets) && Total(FixedGaps(assets)) == 0.0 {
      forall price: Prices ensures Gap(assets, price) == 0.0 {
        EmptyUntrackedGap(assets, price);
      }
    }
  }

  // ---------------------------------------------------------------------------------------------
  // The gap in terms of history
  // ---------------------------------------------------------------------------------------------

  /** Every sale is covered by cost-known units. */
  ghost predicate AllCovered(a: Acc, es: seq<Event>)
    decreases es
  {
    es != [] ==> (es[0].dir == Sell ==> es[0].amount <= a.known) && AllCovered(Step(a, es[0]), es[1..])
  }

  lemma {:induction false} CoveredSellsLeaveNothing(a: Acc, es: seq<Event>)
    requires AmountsOk(es) && AllCovered(a, es)
    ensures Uncovered(a, es) == 0.0
    decreases es
  {
    if es != [] {
      if es[0].dir == Sell {
        assert es[0].amount * (es[0].usd / es[0].amount) == es[0].usd;
      }
      CoveredSellsLeaveNothing(Step(a, es[0]), es[1..]);
    }
  }

  lemma {:induction false} NoLegsNoDrift(a: Acc, es: seq<Event>)
    requires forall e :: e in es ==> !(e.dir == Sell && e.isTransfer)
    ensures Drift(a, es) == 0.0
    decreases es
  {
    if es != [] {
      NoLegsNoDrift(Step(a, es[0]), es[1..]);
    }
  }

  /** The part of an asset's stored balance, at its average cost, that its cost basis does not cover. */
  function Uncosted(acc: Acc): real {
    if acc.known > 0.0 then (acc.qty - acc.known) * (acc.cost / acc.known) else -acc.cost
  }

  lemma FixedGapOfAcc(acc: Acc, a: Asset)
    requires a.p == Projected(acc)
    ensures FixedGap(a) == Books(acc) + Uncosted(acc)
  {
    if acc.known > 0.0 {
      var avg := acc.cost / acc.known;
      assert acc.known * avg == acc.cost;
      assert (acc.qty - acc.known) * avg == acc.qty * avg - acc.cost;
    }
  }

  /** For a projected asset the fixed gap is what its history booked outside the cost basis. */
  lemma FixedGapOfHistory(lot: Lot, es: seq<Event>, a: Asset)
    requires a.p == Project(lot, es)
    ensures FixedGap(a) == Uncovered(Start(lot), es) + Drift(Start(lot), es) + Uncosted(Fold(Start(lot), es))
  {
    hide FixedGap, Uncosted, Fold, Uncovered, Drift;
    AccountingIdentity(lot, es);
    FixedGapOfAcc(Fold(Start(lot), es), a);
  }

  /** A clean holding: sales covered, nothing transferred out, every held unit cost-known. */
  ghost predicate Clean(lot: Lot, es: seq<Event>) {
    && LotOk(lot) && AmountsOk(es) && AllCovered(Start(lot), es)
    && (forall e :: e in es ==> !(e.dir == Sell && e.isTransfer))
    && Fold(Start(lot), es).known == Fold(Start(lot), es).qty
  }

  lemma CleanHasNoGap(lot: Lot, es: seq<Event>, a: Asset)
    requires Clean(lot, es) && a.p == Project(lot, es)
    ensures FixedGap(a) == 0.0 && (a.p.avgCost.None? ==> a.p.balance == 0.0)
  {
    hide Uncovered, Drift, AllCovered, Fold, FixedGap;
    FixedGapOfHistory(lot, es, a);
    CoveredSellsLeaveNothing(Start(lot), es);
    NoLegsNoDrift(Start(lot), es);
    CostNeverOutlivesUnits(lot, es);
  }

  /** With the portfolio total in order, the gap is the difference of the two reported measures. */
  lemma GapIsDifference(assets: map<string, Asset>, price: Prices, netDeposit: real)
    requires netDeposit == Total(NetDeposits(assets))
    ensures var d := Derivation(assets, price, Manual, netDeposit);
            d.pnlAllTimeValue == Some(d.allTime + Gap(assets, price))
  {
  }

  /**
    With only clean holdings, a manual portfolio's value minus net deposit is its unrealized plus
    realized gain for every price map, so the legacy measure and the displayed one coincide.
   */
  lemma CleanMeasuresAgree(db: Db, p: int, price: Prices)
    requires p in db.portfolios && db.portfolios[p].kind == Manual && TotalOk(db, p)
    requires forall s :: s in db.portfolios[p].assets ==>
      Settled(db, p, s) && Clean(db.portfolios[p].assets[s].lot, History(db.rows, p, s))
    ensures var d := Derivation(db.portfolios[p].assets, price, Manual, db.portfolios[p].netDeposit);
            d.pnlAllTimeValue == Some(d.allTime)
  {
    hide FixedGap, Clean, History, Project, Gap;
    var assets := db.portfolios[p].assets;
    forall s | s in assets
      ensures FixedGap(assets[s]) == 0.0 && (assets[s].p.avgCost.None? ==> assets[s].p.balance == 0.0)
    {
      assert Settled(db, p, s) && HasAsset(db, p, s);
      CleanHasNoGap(assets[s].lot, History(db.rows, p, s), assets[s]);
    }
    EmptyUntrackedGap(assets, price);
    TotalOfZeros(FixedGaps(assets));
    GapIsDifference(assets, price, db.portfolios[p].netDeposit);
  }

  /**
    A portfolio whose every unit has a known cost and whose measures still differ: two units bought
    at 10, one sold at 30, the other transferred out at its net deposit of -10.
   */
  lemma TransferSplitsMeasures()
    ensures var es := [Event(Buy, 2.0, 20.0, false, 1, 1), Event(Sell, 1.0, 30.0, false, 2, 2),
                       Event(Sell, 1.0, -10.0, true, 3, 3)];
            var a := Asset(Lot(0.0, None), Project(Lot(0.0, None), es));
            && AllCovered(Start(Lot(0.0, None)), es)
            && Fold(Start(Lot(0.0, None)), es).known == Fold(Start(Lot(0.0, None)), es).qty == 0.0
            && FixedGap(a) == -20.0 && !AgreeAtAllPrices(map["BTC" := a])
  {
    hide Fold, AllCovered, FixedGap, Step, Total;
    SplitFold();
    var lot := Lot(0.0, None);
    var es := [BOUGHT, SOLD, MOVED];
    var a := Asset(lot, Project(lot, es));
    AgreeIff(map["BTC" := a]);
    SplitGap(a);
    TotalPick(FixedGaps(map["BTC" := a]), "BTC");
    TotalNone(FixedGaps(map["BTC" := a]) - {"BTC"});
  }

  const BOUGHT := Event(Buy, 2.0, 20.0, false, 1, 1)
  const SOLD := Event(Sell, 1.0, 30.0, false, 2, 2)
  const MOVED := Event(Sell, 1.0, -10.0, true, 3, 3)

  lemma SplitGap(a: Asset)
    requires a.p == Projected(Acc(0.0, 0.0, 0.0, 20.0, 0.0))
    ensures FixedGap(a) == -20.0
  {
  }

  lemma SplitFold()
    ensures var es, start := [BOUGHT, SOLD, MOVED], Start(Lot(0.0, None));
            Fold(start, es) == Acc(0.0, 0.0, 0.0, 20.0, 0.0) && AllCovered(start, es)
  {
    var start := Start(Lot(0.0, None));
    var a1, a2, a3 := Acc(2.0, 2.0, 20.0, 0.0, 20.0), Acc(1.0, 1.0, 10.0, 20.0, -10.0), Acc(0.0, 0.0, 0.0, 20.0, 0.0);
    assert Step(start, BOUGHT) == a1 && Step(a1, SOLD) == a2 && Step(a2, MOVED) == a3;
    var es := [BOUGHT, SOLD, MOVED];
    assert es[1..] == [SOLD, MOVED] && es[1..][1..] == [MOVED] && es[1..][1..][1..] == [];
    assert Fold(start, es) == Fold(a1, es[1..]) == Fold(a2, es[1..][1..]) == Fold(a3, []) == a3;
    assert AllCovered(a3, []) && AllCovered(a2, es[1..][1..]) && AllCovered(a1, es[1..]);
  }
}
