/**
  The average-cost fold of one holding (src/modules/transactions/recalc.ts).

  The rows of a holding are sorted by (timestamp, id) and folded over its opening lot into five
  coupled accumulators.  Quantity and net deposit do not depend on the order; the cost of the
  held units and the realized gain do.
 */
module Recalc {
  import opened Options

  datatype Direction = Buy | Sell | Transfer

  /** One native or ERC-20 row as the fold sees it; `isTransfer` marks a leg of a paired transfer. */
  datatype Event = Event(dir: Direction, amount: real, usd: real, isTransfer: bool, ts: int, id: int)

  /** The opening position: a holding that is not a trade.  No cost means "cost unknown". */
  datatype Lot = Lot(balance: real, cost: Option<real>)

  /** `known` is the quantity whose cost is known and `cost` its total cost. */
  datatype Acc = Acc(qty: real, known: real, cost: real, realized: real, netDeposit: real)

  /** The five columns that a recalculation writes to the asset row. */
  datatype Projection =
    Projection(balance: real, netDeposit: real, realizedPnl: real, avgCost: Option<real>, costBasis: real)

  function Start(lot: Lot): Acc {
    match lot.cost
    case Some(c) => Acc(lot.balance, lot.balance, c, 0.0, c)
    case None => Acc(lot.balance, 0.0, 0.0, 0.0, 0.0)
  }

  function AvgCost(a: Acc): Option<real> {
    if a.known > 0.0 then Some(a.cost / a.known) else None
  }

  function Min(x: real, y: real): real { if x <= y then x else y }

  /** Units of a sale whose cost is known. */
  function Covered(a: Acc, e: Event): real {
    if a.known > 0.0 then Min(e.amount, a.known) else 0.0
  }

  function UnitPrice(e: Event): real {
    if e.amount > 0.0 then e.usd / e.amount else 0.0
  }

  function Step(a: Acc, e: Event): Acc {
    match e.dir
    case Buy =>
      Acc(a.qty + e.amount, a.known + e.amount, a.cost + e.usd, a.realized, a.netDeposit + e.usd)
    case Sell =>
      var b := match AvgCost(a)
               case None => a
               case Some(avg) =>
                 var sold := Covered(a, e);
                 var gain := if e.isTransfer then 0.0 else sold * (UnitPrice(e) - avg);
                 a.(realized := a.realized + gain, known := a.known - sold, cost := a.cost - sold * avg);
      b.(qty := a.qty - e.amount, netDeposit := a.netDeposit - e.usd)
    case Transfer => a
  }

  function Fold(a: Acc, es: seq<Event>): Acc
    decreases es
  {
    if es == [] then a else Fold(Step(a, es[0]), es[1..])
  }

  function Projected(a: Acc): Projection {
    Projection(a.qty, a.netDeposit, a.realized, AvgCost(a), a.cost)
  }

  /** What a recalculation must store for an opening lot and a history in chronological order. */
  function Project(lot: Lot, history: seq<Event>): Projection {
    Projected(Fold(Start(lot), history))
  }

  lemma {:induction false} FoldAppend(a: Acc, xs: seq<Event>, ys: seq<Event>)
    ensures Fold(a, xs + ys) == Fold(Fold(a, xs), ys)
    decreases xs
  {
    if xs == [] {
      assert xs + ys == ys;
    } else {
      assert (xs + ys)[1..] == xs[1..] + ys;
      FoldAppend(Step(a, xs[0]), xs[1..], ys);
    }
  }

  // ---------------------------------------------------------------------------------------------
  // Chronological order
  // ---------------------------------------------------------------------------------------------

  predicate Before(a: Event, b: Event) {
    a.ts < b.ts || (a.ts == b.ts && a.id < b.id)
  }

  ghost predicate Chronological(es: seq<Event>) {
    forall i, j :: 0 <= i < j < |es| ==> !Before(es[j], es[i])
  }

  ghost predicate DistinctIds(es: seq<Event>) {
    forall i, j :: 0 <= i < j < |es| ==> es[i].id != es[j].id
  }

  function Insert(e: Event, es: seq<Event>): seq<Event> {
    if es == [] || !Before(es[0], e) then [e] + es else [es[0]] + Insert(e, es[1..])
  }

  function Sort(es: seq<Event>): seq<Event> {
    if es == [] then [] else Insert(es[0], Sort(es[1..]))
  }

  lemma {:induction false} InsertKeeps(e: Event, es: seq<Event>)
    requires Chronological(es)
    ensures Chronological(Insert(e, es))
    ensures multiset(Insert(e, es)) == multiset{e} + multiset(es)
  {
    if es != [] && Before(es[0], e) {
      InsertKeeps(e, es[1..]);
      var rest := Insert(e, es[1..]);
      assert es == [es[0]] + es[1..];
      forall j | 0 <= j < |rest| ensures !Before(rest[j], es[0]) {
        assert rest[j] in multiset(rest);
        assert rest[j] == e || rest[j] in es[1..];
      }
    } else {
      assert Insert(e, es) == [e] + es;
    }
  }

  lemma {:induction false} SortSorts(es: seq<Event>)
    ensures Chronological(Sort(es)) && multiset(Sort(es)) == multiset(es)
  {
    if es != [] {
      SortSorts(es[1..]);
      InsertKeeps(es[0], Sort(es[1..]));
      assert es == [es[0]] + es[1..];
    }
  }

  lemma TailMultiset(xs: seq<Event>)
    requires xs != []
    ensures multiset(xs[1..]) == multiset(xs) - multiset{xs[0]}
  {
    assert xs == [xs[0]] + xs[1..];
  }

  lemma SameFirst(xs: seq<Event>, ys: seq<Event>)
    requires Chronological(xs) && Chronological(ys) && DistinctIds(xs)
    requires multiset(xs) == multiset(ys) && xs != [] && ys != []
    ensures xs[0] == ys[0]
  {
    assert xs[0] in multiset(ys) && ys[0] in multiset(xs);
    var i :| 0 <= i < |xs| && xs[i] == ys[0];
    var j :| 0 <= j < |ys| && ys[j] == xs[0];
    assert i == 0 || !Before(xs[i], xs[0]);
    assert j == 0 || !Before(ys[j], ys[0]);
  }

  /** The order the database returns rows in does not matter: ids are unique, so the order is total. */
  lemma {:induction false} ChronologicalIsUnique(xs: seq<Event>, ys: seq<Event>)
    requires Chronological(xs) && Chronological(ys) && DistinctIds(xs) && multiset(xs) == multiset(ys)
    ensures xs == ys
    decreases |xs|
  {
    assert |xs| == |multiset(xs)| == |multiset(ys)| == |ys|;
    if xs != [] {
      SameFirst(xs, ys);
      TailMultiset(xs);
      TailMultiset(ys);
      ChronologicalIsUnique(xs[1..], ys[1..]);
      assert xs == [xs[0]] + xs[1..] && ys == [ys[0]] + ys[1..];
    }
  }

  lemma {:induction false} InsertKeepsIds(e: Event, es: seq<Event>)
    requires DistinctIds(es) && forall i :: 0 <= i < |es| ==> es[i].id != e.id
    ensures DistinctIds(Insert(e, es))
    ensures forall x :: x in Insert(e, es) ==> x == e || x in es
  {
    if es != [] && Before(es[0], e) {
      InsertKeepsIds(e, es[1..]);
      assert forall x :: x in Insert(e, es[1..]) ==> x == e || x in es[1..];
      assert forall x :: x in es[1..] ==> x.id != es[0].id;
    }
  }

  lemma {:induction false} SortKeepsIds(es: seq<Event>)
    requires DistinctIds(es)
    ensures DistinctIds(Sort(es))
    ensures forall x :: x in Sort(es) ==> x in es
  {
    if es != [] {
      SortKeepsIds(es[1..]);
      assert forall x :: x in es[1..] ==> x.id != es[0].id;
      InsertKeepsIds(es[0], Sort(es[1..]));
    }
  }

  lemma SortIgnoresOrder(xs: seq<Event>, ys: seq<Event>)
    requires multiset(xs) == multiset(ys) && DistinctIds(xs)
    ensures Sort(xs) == Sort(ys)
  {
    SortSorts(xs);
    SortSorts(ys);
    SortKeepsIds(xs);
    ChronologicalIsUnique(Sort(xs), Sort(ys));
  }

  // ---------------------------------------------------------------------------------------------
  // Quantity and net deposit do not depend on the order
  // ---------------------------------------------------------------------------------------------

  function Signed(dir: Direction, x: real): real {
    match dir
    case Buy => x
    case Sell => -x
    case Transfer => 0.0
  }

  /** Units bought minus units sold. */
  function NetQty(es: seq<Event>): real {
    if es == [] then 0.0 else Signed(es[0].dir, es[0].amount) + NetQty(es[1..])
  }

  /** Dollars paid for buys minus dollars received for sells. */
  function NetUsd(es: seq<Event>): real {
    if es == [] then 0.0 else Signed(es[0].dir, es[0].usd) + NetUsd(es[1..])
  }

  lemma {:induction false} NetAppend(xs: seq<Event>, ys: seq<Event>)
    ensures NetQty(xs + ys) == NetQty(xs) + NetQty(ys)
    ensures NetUsd(xs + ys) == NetUsd(xs) + NetUsd(ys)
  {
    if xs == [] {
      assert xs + ys == ys;
    } else {
      assert (xs + ys)[1..] == xs[1..] + ys;
      NetAppend(xs[1..], ys);
    }
  }

  lemma {:induction false} NetInsert(e: Event, es: seq<Event>)
    ensures NetQty(Insert(e, es)) == Signed(e.dir, e.amount) + NetQty(es)
    ensures NetUsd(Insert(e, es)) == Signed(e.dir, e.usd) + NetUsd(es)
  {
    if es == [] || !Before(es[0], e) {
      assert ([e] + es)[1..] == es;
    } else {
      NetInsert(e, es[1..]);
      assert Insert(e, es)[1..] == Insert(e, es[1..]);
    }
  }

  lemma {:induction false} NetSort(es: seq<Event>)
    ensures NetQty(Sort(es)) == NetQty(es) && NetUsd(Sort(es)) == NetUsd(es)
  {
    if es != [] {
      NetSort(es[1..]);
      NetInsert(es[0], Sort(es[1..]));
    }
  }

  lemma {:induction false} FoldNets(a: Acc, es: seq<Event>)
    ensures Fold(a, es).qty == a.qty + NetQty(es)
    ensures Fold(a, es).netDeposit == a.netDeposit + NetUsd(es)
    decreases es
  {
    if es != [] {
      FoldNets(Step(a, es[0]), es[1..]);
    }
  }

  /** The projected balance and net deposit are opening plus buys minus sells, in any order. */
  lemma ProjectNets(lot: Lot, es: seq<Event>)
    ensures Project(lot, Sort(es)).balance == lot.balance + NetQty(es)
    ensures Project(lot, Sort(es)).netDeposit == lot.cost.GetOr(0.0) + NetUsd(es)
  {
    FoldNets(Start(lot), Sort(es));
    NetSort(es);
  }

  // ---------------------------------------------------------------------------------------------
  // What every prefix of the fold keeps
  // ---------------------------------------------------------------------------------------------

  /** A lot the asset endpoints accept: a cost is only ever stored with a positive balance. */
  ghost predicate LotOk(lot: Lot) {
    lot.balance >= 0.0 && (lot.cost.Some? ==> lot.cost.value >= 0.0 && (lot.balance > 0.0 || lot.cost.value == 0.0))
  }

  /** Row amounts are positive.  Dollars may have any sign: transfer legs carry net deposit. */
  ghost predicate AmountsOk(es: seq<Event>) { forall i :: 0 <= i < |es| ==> es[i].amount > 0.0 }

  ghost predicate BuysCost(es: seq<Event>) { forall i :: 0 <= i < |es| && es[i].dir == Buy ==> es[i].usd >= 0.0 }

  /** Cost-known quantity is not negative, and there is no cost without it. */
  ghost predicate CostBacked(a: Acc) { a.known >= 0.0 && (a.known == 0.0 ==> a.cost == 0.0) }

  /** `lo` and `hi` bound the unit cost of every lot that entered the holding. */
  ghost predicate WithinLots(lo: real, hi: real, lot: Lot, es: seq<Event>) {
    && lo <= hi
    && (lot.cost.Some? ==> lo * lot.balance <= lot.cost.value <= hi * lot.balance)
    && forall i :: 0 <= i < |es| && es[i].dir == Buy ==> lo * es[i].amount <= es[i].usd <= hi * es[i].amount
  }

  ghost predicate UnitCostWithin(lo: real, hi: real, a: Acc) {
    lo * a.known <= a.cost <= hi * a.known
  }

  /** A sale takes cost in proportion to the cost-known units it takes. */
  lemma SellScales(a: Acc, e: Event)
    requires e.dir == Sell && a.known > 0.0 && e.amount >= 0.0
    ensures var k := Step(a, e).known; 0.0 <= k <= a.known && Step(a, e).cost == k * (a.cost / a.known)
  {
    var avg := a.cost / a.known;
    var sold := Covered(a, e);
    assert a.cost == a.known * avg;
    assert Step(a, e).cost == a.cost - sold * avg == (a.known - sold) * avg;
  }

  lemma {:induction false} FoldKeepsCostBacked(a: Acc, es: seq<Event>)
    requires CostBacked(a) && AmountsOk(es)
    ensures CostBacked(Fold(a, es))
    ensures a.cost >= 0.0 && BuysCost(es) ==> Fold(a, es).cost >= 0.0
    decreases es
  {
    if es != [] {
      if es[0].dir == Sell && a.known > 0.0 {
        SellScales(a, es[0]);
        assert a.cost >= 0.0 ==> a.cost / a.known >= 0.0;
      }
      FoldKeepsCostBacked(Step(a, es[0]), es[1..]);
    }
  }

  /**
    Whatever dollars the rows carry, known quantity never goes negative and no cost is left once no
    known unit is; cost never goes negative as long as the purchases cost something.
   */
  lemma CostNeverOutlivesUnits(lot: Lot, es: seq<Event>)
    requires LotOk(lot) && AmountsOk(es)
    ensures CostBacked(Fold(Start(lot), es))
    ensures BuysCost(es) ==> Fold(Start(lot), es).cost >= 0.0
  {
    FoldKeepsCostBacked(Start(lot), es);
  }

  lemma StepKeepsUnitCost(lo: real, hi: real, a: Acc, e: Event)
    requires lo <= hi && e.amount > 0.0 && a.known >= 0.0 && UnitCostWithin(lo, hi, a)
    requires e.dir == Buy ==> lo * e.amount <= e.usd <= hi * e.amount
    ensures UnitCostWithin(lo, hi, Step(a, e)) && Step(a, e).known >= 0.0
  {
    if e.dir == Sell && a.known > 0.0 {
      var avg := a.cost / a.known;
      SellScales(a, e);
      UnitCostBounds(lo, hi, a);
      var k := Step(a, e).known;
      assert lo * k <= k * avg <= hi * k;
    } else if e.dir == Buy {
      assert lo * (a.known + e.amount) == lo * a.known + lo * e.amount;
      assert hi * (a.known + e.amount) == hi * a.known + hi * e.amount;
    }
  }

  lemma {:induction false} FoldKeepsUnitCost(lo: real, hi: real, a: Acc, es: seq<Event>)
    requires lo <= hi && AmountsOk(es) && a.known >= 0.0 && UnitCostWithin(lo, hi, a)
    requires forall i :: 0 <= i < |es| && es[i].dir == Buy ==> lo * es[i].amount <= es[i].usd <= hi * es[i].amount
    ensures UnitCostWithin(lo, hi, Fold(a, es)) && Fold(a, es).known >= 0.0
    decreases es
  {
    if es != [] {
      StepKeepsUnitCost(lo, hi, a, es[0]);
      FoldKeepsUnitCost(lo, hi, Step(a, es[0]), es[1..]);
    }
  }

  lemma UnitCostBounds(lo: real, hi: real, a: Acc)
    requires UnitCostWithin(lo, hi, a)
    ensures a.known > 0.0 ==> lo <= AvgCost(a).value <= hi
  {
    if a.known > 0.0 {
      var avg := a.cost / a.known;
      assert avg * a.known == a.cost;
    }
  }

  /** The average cost lies between the cheapest and the dearest lot, whatever was sold or moved in between. */
  lemma AvgCostWithinLots(lo: real, hi: real, lot: Lot, es: seq<Event>)
    requires lot.balance >= 0.0 && AmountsOk(es) && WithinLots(lo, hi, lot, es)
    ensures var avg := AvgCost(Fold(Start(lot), es)); avg.Some? ==> lo <= avg.value <= hi
  {
    FoldKeepsUnitCost(lo, hi, Start(lot), es);
    UnitCostBounds(lo, hi, Fold(Start(lot), es));
  }

  /** Selling never changes the average cost while known units remain. */
  lemma SellKeepsAvgCost(a: Acc, e: Event)
    requires e.dir == Sell && e.amount > 0.0 && Step(a, e).known > 0.0
    ensures AvgCost(Step(a, e)) == AvgCost(a)
  {
    if a.known > 0.0 {
      var k, avg := Step(a, e).known, a.cost / a.known;
      var avg' := Step(a, e).cost / k;
      assert avg' * k == avg * k;
    }
  }

  ghost predicate NeverShort(lot: Lot, es: seq<Event>) {
    forall n :: 0 <= n <= |es| ==> Fold(Start(lot), es[..n]).qty >= 0.0
  }

  ghost predicate KnownAlwaysHeld(lot: Lot, es: seq<Event>) {
    forall n :: 0 <= n <= |es| ==> Fold(Start(lot), es[..n]).known <= Fold(Start(lot), es[..n]).qty
  }

  lemma {:induction false} NeverShortPrefix(lot: Lot, es: seq<Event>, n: nat)
    requires LotOk(lot) && AmountsOk(es) && NeverShort(lot, es) && n <= |es|
    ensures Fold(Start(lot), es[..n]).known <= Fold(Start(lot), es[..n]).qty
  {
    if n > 0 {
      NeverShortPrefix(lot, es, n - 1);
      assert es[..n] == es[..n-1] + [es[n-1]];
      FoldAppend(Start(lot), es[..n-1], [es[n-1]]);
      CostNeverOutlivesUnits(lot, es[..n-1]);
    }
  }

  /**
    The known units are units actually held at every point of the history exactly when the holding
    is never sold short.
   */
  lemma KnownHeldIffNeverShort(lot: Lot, es: seq<Event>)
    requires LotOk(lot) && AmountsOk(es)
    ensures KnownAlwaysHeld(lot, es) <==> NeverShort(lot, es)
  {
    if NeverShort(lot, es) {
      forall n | 0 <= n <= |es| ensures Fold(Start(lot), es[..n]).known <= Fold(Start(lot), es[..n]).qty {
        NeverShortPrefix(lot, es, n);
      }
    }
    if KnownAlwaysHeld(lot, es) {
      forall n | 0 <= n <= |es| ensures Fold(Start(lot), es[..n]).qty >= 0.0 {
        CostNeverOutlivesUnits(lot, es[..n]);
      }
    }
  }

  // ---------------------------------------------------------------------------------------------
  // The accounting identity
  // ---------------------------------------------------------------------------------------------

  /** Proceeds of the units sold at `e` whose cost is unknown. */
  function UncoveredProceeds(a: Acc, e: Event): real {
    if e.dir == Sell then e.usd - Covered(a, e) * UnitPrice(e) else 0.0
  }

  /** What a transfer leg books out as proceeds above the cost it removes. */
  function TransferDrift(a: Acc, e: Event): real {
    match AvgCost(a)
    case None => 0.0
    case Some(avg) =>
      if e.dir == Sell && e.isTransfer then Covered(a, e) * UnitPrice(e) - Covered(a, e) * avg else 0.0
  }

  function Uncovered(a: Acc, es: seq<Event>): real
    decreases es
  {
    if es == [] then 0.0 else UncoveredProceeds(a, es[0]) + Uncovered(Step(a, es[0]), es[1..])
  }

  function Drift(a: Acc, es: seq<Event>): real
    decreases es
  {
    if es == [] then 0.0 else TransferDrift(a, es[0]) + Drift(Step(a, es[0]), es[1..])
  }

  function Books(a: Acc): real { a.cost - a.netDeposit - a.realized }

  lemma StepBooks(a: Acc, e: Event)
    ensures Books(Step(a, e)) == Books(a) + UncoveredProceeds(a, e) + TransferDrift(a, e)
  {
    if e.dir == Sell && a.known > 0.0 {
      var sold, avg, price := Covered(a, e), a.cost / a.known, UnitPrice(e);
      assert sold * (price - avg) == sold * price - sold * avg;
    }
  }

  lemma {:induction false} FoldBooks(a: Acc, es: seq<Event>)
    ensures Books(Fold(a, es)) == Books(a) + Uncovered(a, es) + Drift(a, es)
    decreases es
  {
    if es != [] {
      StepBooks(a, es[0]);
      FoldBooks(Step(a, es[0]), es[1..]);
    }
  }

  /**
    For every history: cost basis minus net deposit minus realized gain is exactly the proceeds of
    cost-unknown units plus what transfer legs carried out above the cost they removed.
   */
  lemma AccountingIdentity(lot: Lot, es: seq<Event>)
    ensures var p := Project(lot, es);
            p.costBasis - p.netDeposit - p.realizedPnl == Uncovered(Start(lot), es) + Drift(Start(lot), es)
  {
    FoldBooks(Start(lot), es);
  }
}
