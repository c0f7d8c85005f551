/**
  Cross-portfolio transfers: what a transfer conserves, and what deleting one of its legs undoes
  (src/modules/transactions/transactions.transfer.private.ts and transactions.mutations.private.ts).
 */
module Transfers {
  import opened Options
  import opened Recalc
  import opened Totals
  import opened Ledger
  import opened LedgerRuns
  import opened Bulk

  ghost function BalanceAt(db: Db, p: int, s: string): real {
    if HasAsset(db, p, s) then AssetAt(db, p, s).p.balance else 0.0
  }

  ghost function DepositAt(db: Db, p: int, s: string): real {
    if HasAsset(db, p, s) then AssetAt(db, p, s).p.netDeposit else 0.0
  }

  /** Rows of a removed asset that an automatically created one takes over. */
  ghost function LeftoverQty(db: Db, p: int, s: string): real {
    if HasAsset(db, p, s) then 0.0 else NetQty(EventsOf(db.rows, p, s))
  }

  ghost function LeftoverUsd(db: Db, p: int, s: string): real {
    if HasAsset(db, p, s) then 0.0 else NetUsd(EventsOf(db.rows, p, s))
  }

  ghost predicate Movable(db: Db, src: int, dst: int, s: string) {
    && HasAsset(db, src, s) && dst in db.portfolios && db.portfolios[dst].kind == Manual && src != dst
    && Balanced(db, src, s) && Balanced(db, dst, s)
  }

  /** The two assets after a move of `amount` units for `usd` dollars. */
  lemma MovedAssets(db: Db, src: int, dst: int, s: string, amount: real, usd: real, ts: int, g: int)
    requires Movable(db, src, dst, s)
    ensures var db' := Moved(db, src, dst, s, amount, usd, ts, g);
            && HasAsset(db', src, s) && HasAsset(db', dst, s)
            && BalanceAt(db', src, s) == BalanceAt(db, src, s) - amount
            && DepositAt(db', src, s) == DepositAt(db, src, s) - usd
            && BalanceAt(db', dst, s) == BalanceAt(db, dst, s) + LeftoverQty(db, dst, s) + amount
            && DepositAt(db', dst, s) == DepositAt(db, dst, s) + LeftoverUsd(db, dst, s) + usd
  {
    var db' := Moved(db, src, dst, s, amount, usd, ts, g);
    MovedKeeps(db, src, dst, s, amount, usd, ts, g);
    LegEvents(db, src, dst, s, amount, usd, ts, g, src, s);
    LegEvents(db, src, dst, s, amount, usd, ts, g, dst, s);
    var out, back := Event(Sell, amount, usd, true, ts, db.nextId), Event(Buy, amount, usd, true, ts, db.nextId + 1);
    NetAppend(EventsOf(db.rows, src, s), [out]);
    NetAppend(EventsOf(db.rows, dst, s), [back]);
    assert NetQty([out]) == -amount && NetUsd([out]) == -usd && NetQty([back]) == amount && NetUsd([back]) == usd;
    SettledIsBalanced(db', src, s);
    SettledIsBalanced(db', dst, s);
  }

  /** A refused transfer aside, the dollars of both legs are the source's net deposit per unit. */
  lemma TransferIsMove(db: Db, cat: Catalog, src: int, dst: int, s: string, amount: real, ts: int, g: int)
    requires src in db.portfolios && amount > 0.0 && CreateTransfer(db, cat, src, dst, s, amount, ts, g).Ok?
    requires Balanced(db, src, s) && Balanced(db, dst, s)
    ensures Movable(db, src, dst, s) && BalanceAt(db, src, s) >= amount
    ensures CreateTransfer(db, cat, src, dst, s, amount, ts, g).value
         == Moved(db, src, dst, s, amount, CarriedUsd(amount, AssetAt(db, src, s).p), ts, g)
  {
  }

  /**
    A transfer, whatever its timestamp, moves units and net deposit between the two assets; their
    sums change by exactly the leftover rows that a newly created destination asset takes over.
   */
  lemma TransferConserves(db: Db, cat: Catalog, src: int, dst: int, s: string, amount: real, ts: int, g: int)
    requires src in db.portfolios && amount > 0.0 && CreateTransfer(db, cat, src, dst, s, amount, ts, g).Ok?
    requires Balanced(db, src, s) && Balanced(db, dst, s)
    ensures var db' := CreateTransfer(db, cat, src, dst, s, amount, ts, g).value;
            && BalanceAt(db', src, s) == BalanceAt(db, src, s) - amount
            && BalanceAt(db', src, s) + BalanceAt(db', dst, s)
                 == BalanceAt(db, src, s) + BalanceAt(db, dst, s) + LeftoverQty(db, dst, s)
            && DepositAt(db', src, s) + DepositAt(db', dst, s)
                 == DepositAt(db, src, s) + DepositAt(db, dst, s) + LeftoverUsd(db, dst, s)
  {
    TransferIsMove(db, cat, src, dst, s, amount, ts, g);
    hide Moved, CreateTransfer;
    MovedAssets(db, src, dst, s, amount, CarriedUsd(amount, AssetAt(db, src, s).p), ts, g);
  }

  /** Units are conserved exactly when the destination was held or its leftover rows net to zero. */
  lemma TransferConservesUnitsIff(db: Db, cat: Catalog, src: int, dst: int, s: string, amount: real, ts: int, g: int)
    requires src in db.portfolios && amount > 0.0 && CreateTransfer(db, cat, src, dst, s, amount, ts, g).Ok?
    requires Balanced(db, src, s) && Balanced(db, dst, s)
    ensures var db' := CreateTransfer(db, cat, src, dst, s, amount, ts, g).value;
            BalanceAt(db', src, s) + BalanceAt(db', dst, s) == BalanceAt(db, src, s) + BalanceAt(db, dst, s)
            <==> HasAsset(db, dst, s) || NetQty(EventsOf(db.rows, dst, s)) == 0.0
  {
    hide CreateTransfer;
    TransferConserves(db, cat, src, dst, s, amount, ts, g);
  }

  lemma CarriedPerUnit(amount: real, held: Projection)
    requires held.balance > amount > 0.0
    ensures (held.netDeposit - CarriedUsd(amount, held)) / (held.balance - amount) == held.netDeposit / held.balance
  {
    var n, b := held.netDeposit, held.balance;
    var u := n / b;
    assert u * b == n;
    assert CarriedUsd(amount, held) == u * amount by {
      assert amount * n == (u * amount) * b;
    }
    assert n - u * amount == u * (b - amount);
  }

  /** What remains at the source keeps its net deposit per unit. */
  lemma TransferKeepsUnitDeposit(db: Db, cat: Catalog, src: int, dst: int, s: string, amount: real, ts: int, g: int)
    requires src in db.portfolios && amount > 0.0 && CreateTransfer(db, cat, src, dst, s, amount, ts, g).Ok?
    requires Balanced(db, src, s) && Balanced(db, dst, s) && BalanceAt(db, src, s) != amount
    ensures var db' := CreateTransfer(db, cat, src, dst, s, amount, ts, g).value;
            BalanceAt(db', src, s) > 0.0
            && DepositAt(db', src, s) / BalanceAt(db', src, s) == DepositAt(db, src, s) / BalanceAt(db, src, s)
  {
    TransferIsMove(db, cat, src, dst, s, amount, ts, g);
    hide Moved, CreateTransfer, CarriedUsd;
    MovedAssets(db, src, dst, s, amount, CarriedUsd(amount, AssetAt(db, src, s).p), ts, g);
    CarriedPerUnit(amount, AssetAt(db, src, s).p);
  }

  // ---------------------------------------------------------------------------------------------
  // Portfolio totals
  // ---------------------------------------------------------------------------------------------

  lemma OneAssetTotal(before: map<string, Asset>, after: map<string, Asset>, s: string)
    requires s in after && after.Keys == before.Keys + {s}
    requires forall x :: x in before && x != s ==> after[x] == before[x]
    ensures Total(NetDeposits(after))
         == Total(NetDeposits(before)) - (if s in before then before[s].p.netDeposit else 0.0) + after[s].p.netDeposit
  {
    TotalUpdate(NetDeposits(before), s, after[s].p.netDeposit);
    assert NetDeposits(after) == NetDeposits(before)[s := after[s].p.netDeposit];
  }

  /** A recalculation that names one asset of a portfolio leaves the others alone. */
  lemma ResettleOne(db: Db, targets: set<(int, string)>, totals: set<int>, p: int, s: string)
    requires p in db.portfolios && forall t :: t in targets && t.0 == p ==> t.1 == s
    ensures var was, now := db.portfolios[p].assets, Resettle(db, targets, totals).portfolios[p].assets;
            now.Keys == was.Keys && forall x :: x in was && x != s ==> now[x] == was[x]
  {
  }

  lemma MovedPortfolio(db: Db, src: int, dst: int, s: string, amount: real, usd: real, ts: int, g: int, p: int)
    requires Movable(db, src, dst, s) && (p == src || p == dst)
    ensures var db' := Moved(db, src, dst, s, amount, usd, ts, g);
            && p in db'.portfolios && s in db'.portfolios[p].assets && TotalOk(db', p)
            && db'.portfolios[p].assets.Keys == db.portfolios[p].assets.Keys + {s}
            && forall x :: x in db.portfolios[p].assets && x != s ==> db'.portfolios[p].assets[x] == db.portfolios[p].assets[x]
  {
    hide ResettledPortfolios, Total;
    var raw := WithLegs(db, src, dst, s, amount, usd, ts, g);
    ResettleOne(raw, {(src, s), (dst, s)}, {src, dst}, p, s);
    ResettleSettles(raw, {(src, s), (dst, s)}, {src, dst});
    assert raw.portfolios[p].assets.Keys == db.portfolios[p].assets.Keys + {s};
    assert p in Moved(db, src, dst, s, amount, usd, ts, g).portfolios by {
      ResettleKeys(raw, {(src, s), (dst, s)}, {src, dst});
    }
  }

  lemma ResettleKeys(db: Db, targets: set<(int, string)>, totals: set<int>)
    ensures Resettle(db, targets, totals).portfolios.Keys == db.portfolios.Keys
  {
  }

  /** Two recalculated portfolios keep their joint net deposit, up to the same leftover rows. */
  lemma TransferConservesTotals(db: Db, cat: Catalog, src: int, dst: int, s: string, amount: real, ts: int, g: int)
    requires src in db.portfolios && amount > 0.0 && CreateTransfer(db, cat, src, dst, s, amount, ts, g).Ok?
    requires Balanced(db, src, s) && Balanced(db, dst, s) && TotalOk(db, src) && TotalOk(db, dst)
    ensures var db' := CreateTransfer(db, cat, src, dst, s, amount, ts, g).value;
            && src in db'.portfolios && dst in db'.portfolios && dst in db.portfolios
            && db'.portfolios[src].netDeposit + db'.portfolios[dst].netDeposit
                 == db.portfolios[src].netDeposit + db.portfolios[dst].netDeposit + LeftoverUsd(db, dst, s)
  {
    TransferIsMove(db, cat, src, dst, s, amount, ts, g);
    hide Moved, CreateTransfer, CarriedUsd;
    var usd := CarriedUsd(amount, AssetAt(db, src, s).p);
    var db' := Moved(db, src, dst, s, amount, usd, ts, g);
    MovedAssets(db, src, dst, s, amount, usd, ts, g);
    MovedPortfolio(db, src, dst, s, amount, usd, ts, g, src);
    MovedPortfolio(db, src, dst, s, amount, usd, ts, g, dst);
    OneAssetTotal(db.portfolios[src].assets, db'.portfolios[src].assets, s);
    OneAssetTotal(db.portfolios[dst].assets, db'.portfolios[dst].assets, s);
  }

  // ---------------------------------------------------------------------------------------------
  // Pairs
  // ---------------------------------------------------------------------------------------------

  /** A sale here and a purchase there of the same units, for the same dollars, at the same time. */
  predicate PairOk(legs: seq<TxRow>) {
    && |legs| == 2 && legs[0].dir == Sell && legs[1].dir == Buy
    && legs[0].kind == legs[1].kind == Native && legs[0].portfolio != legs[1].portfolio
    && legs[0].symbol == legs[1].symbol && legs[0].amount == legs[1].amount
    && legs[0].usd == legs[1].usd && legs[0].ts == legs[1].ts
  }

  ghost predicate PairsOk(rows: seq<TxRow>) {
    forall g :: Legs(rows, g) == [] || PairOk(Legs(rows, g))
  }

  lemma {:induction false} LegsConcat(xs: seq<TxRow>, ys: seq<TxRow>, g: int)
    ensures Legs(xs + ys, g) == Legs(xs, g) + Legs(ys, g)
  {
    if xs == [] {
      assert xs + ys == ys;
    } else {
      assert (xs + ys)[1..] == xs[1..] + ys;
      LegsConcat(xs[1..], ys, g);
      var head := if xs[0].group == Some(g) then [xs[0]] else [];
      assert head + (Legs(xs[1..], g) + Legs(ys, g)) == (head + Legs(xs[1..], g)) + Legs(ys, g);
    }
  }

  lemma LegsAround(rows: seq<TxRow>, i: nat, r: TxRow, g: int)
    requires i < |rows| && rows[i].group.None? && r.group.None?
    ensures Legs(rows[i := r], g) == Legs(rows, g) && Legs(rows[..i] + rows[i+1..], g) == Legs(rows, g)
  {
    assert rows == rows[..i] + ([rows[i]] + rows[i+1..]) && rows[i := r] == rows[..i] + ([r] + rows[i+1..]);
    LegsConcat(rows[..i], [rows[i]] + rows[i+1..], g);
    LegsConcat(rows[..i], [r] + rows[i+1..], g);
    LegsConcat(rows[..i], rows[i+1..], g);
  }

  lemma {:induction false} LegsWithoutGroup(rows: seq<TxRow>, g: int, h: int)
    ensures Legs(WithoutGroup(rows, g), h) == if h == g then [] else Legs(rows, h)
  {
    if rows != [] {
      LegsWithoutGroup(rows[1..], g, h);
      LegsConcat(if rows[0].group == Some(g) then [] else [rows[0]], WithoutGroup(rows[1..], g), h);
    }
  }

  lemma {:induction false} LegsInsertAll(db: Db, p: int, ps: seq<Prepared>, g: int)
    requires p in db.portfolios
    ensures Legs(InsertAll(db, p, ps).rows, g) == Legs(db.rows, g)
    decreases ps
  {
    if ps != [] {
      LegsConcat(db.rows, [NewRow(db.nextId, p, ps[0].tx, 0.0)], g);
      LegsInsertAll(InsertRow(db, p, ps[0]), p, ps[1..], g);
    }
  }

  /** The group id a transfer draws is new. */
  ghost predicate FreshGroup(db: Db, t: Call) {
    t.request.Move? ==> Legs(db.rows, t.request.g) == []
  }

  lemma ApplyKeepsPairs(db: Db, cat: Catalog, t: Call)
    requires PairsOk(db.rows) && FreshGroup(db, t)
    ensures PairsOk(Apply(db, cat, t).rows)
  {
    forall g ensures Legs(Apply(db, cat, t).rows, g) == [] || PairOk(Legs(Apply(db, cat, t).rows, g)) {
      LegsAfter(db, cat, t, g);
    }
  }

  lemma MovedLegs(db: Db, src: int, dst: int, s: string, amount: real, usd: real, ts: int, h: int, g: int)
    requires dst in db.portfolios && src != dst && Legs(db.rows, h) == []
    ensures var legs := Legs(WithLegs(db, src, dst, s, amount, usd, ts, h).rows, g);
            if g == h then PairOk(legs) else legs == Legs(db.rows, g)
  {
    var out := Leg(src, s, Sell, amount, usd, ts, h).(id := db.nextId);
    var back := Leg(dst, s, Buy, amount, usd, ts, h).(id := db.nextId + 1);
    LegsConcat(db.rows + [out], [back], g);
    LegsConcat(db.rows, [out], g);
  }

  lemma UpdatedLegs(db: Db, cat: Catalog, market: real, p: int, id: int, b: Patch, g: int)
    requires p in db.portfolios
    ensures var r := UpdateTransaction(db, cat, market, p, id, b); r.Ok? ==> Legs(r.value.rows, g) == Legs(db.rows, g)
  {
    var i := IndexOf(db.rows, id);
    if UpdateTransaction(db, cat, market, p, id, b).Ok? {
      LegsAround(db.rows, i, PatchedRow(db.rows[i], b, market), g);
    }
  }

  lemma DeletedLegs(db: Db, p: int, id: int, g: int)
    requires p in db.portfolios
    ensures var r := DeleteTransaction(db, p, id);
            r.Ok? ==> Legs(r.value.rows, g) == [] || Legs(r.value.rows, g) == Legs(db.rows, g)
  {
    var i := IndexOf(db.rows, id);
    if DeleteTransaction(db, p, id).Ok? {
      match db.rows[i].group {
        case Some(h) => LegsWithoutGroup(db.rows, h, g);
        case None => LegsAround(db.rows, i, db.rows[i], g);
      }
    }
  }

  lemma CreatedLegs(db: Db, cat: Catalog, free: bool, market: real, p: int, b: NewTx, g: int)
    requires p in db.portfolios
    ensures var r := CreateTransaction(db, cat, free, market, p, b); r.Ok? ==> Legs(r.value.rows, g) == Legs(db.rows, g)
  {
    LegsConcat(db.rows, [NewRow(0, p, b, market).(id := db.nextId)], g);
  }

  lemma ImportedLegs(db: Db, cat: Catalog, free: bool, p: int, mode: Mode, lines: seq<CsvRow>, g: int)
    requires p in db.portfolios
    ensures var r := BulkCreate(db, cat, free, p, mode, lines); r.Ok? ==> Legs(r.value.0.rows, g) == Legs(db.rows, g)
  {
    LegsInsertAll(db, p, ToInsert(ScanRows(db, cat, free, p, StartScan(db, p), lines, 0).prepared), g);
  }

  lemma TransferredLegs(db: Db, cat: Catalog, src: int, dst: int, s: string, amount: real, ts: int, h: int, g: int)
    requires src in db.portfolios && amount > 0.0 && Legs(db.rows, h) == []
    ensures var r := CreateTransfer(db, cat, src, dst, s, amount, ts, h);
            r.Ok? ==> if g == h then PairOk(Legs(r.value.rows, g)) else Legs(r.value.rows, g) == Legs(db.rows, g)
  {
    hide CarriedUsd;
    if CreateTransfer(db, cat, src, dst, s, amount, ts, h).Ok? {
      MovedLegs(db, src, dst, s, amount, CarriedUsd(amount, db.portfolios[src].assets[s].p), ts, h, g);
    }
  }

  lemma AssetRequestRows(db: Db, cat: Catalog, t: Call)
    requires t.request.Open? || t.request.Edit? || t.request.Remove?
    ensures Apply(db, cat, t).rows == db.rows
  {
  }

  lemma LegsAfter(db: Db, cat: Catalog, t: Call, g: int)
    requires PairsOk(db.rows) && FreshGroup(db, t)
    ensures var legs := Legs(Apply(db, cat, t).rows, g); legs == [] || PairOk(legs)
  {
    hide CreateTransaction, UpdateTransaction, DeleteTransaction, BulkCreate, CreateTransfer;
    assert Legs(db.rows, g) == [] || PairOk(Legs(db.rows, g));
    if t.p in db.portfolios {
      match t.request
      case Create(b, free, market) => CreatedLegs(db, cat, free, market, t.p, b, g);
      case Update(id, patch, market) => UpdatedLegs(db, cat, market, t.p, id, patch, g);
      case Delete(id) => DeletedLegs(db, t.p, id, g);
      case Import(mode, lines, free) => ImportedLegs(db, cat, free, t.p, mode, lines, g);
      case Move(dst, s, amount, ts, h) =>
        if amount > 0.0 {
          TransferredLegs(db, cat, t.p, dst, s, amount, ts, h, g);
        }
      case _ => AssetRequestRows(db, cat, t);
    }
  }

  ghost predicate FreshRun(db: Db, cat: Catalog, ts: seq<Call>)
    decreases ts
  {
    ts == [] || (FreshGroup(db, ts[0]) && FreshRun(Apply(db, cat, ts[0]), cat, ts[1..]))
  }

  /** In every run each transfer group is either gone or a complete, matching pair. */
  lemma {:induction false} RunKeepsPairs(db: Db, cat: Catalog, ts: seq<Call>)
    requires PairsOk(db.rows) && FreshRun(db, cat, ts)
    ensures PairsOk(Run(db, cat, ts).rows)
    decreases ts
  {
    if ts != [] {
      ApplyKeepsPairs(db, cat, ts[0]);
      RunKeepsPairs(Apply(db, cat, ts[0]), cat, ts[1..]);
    }
  }

  // ---------------------------------------------------------------------------------------------
  // Deleting a leg
  // ---------------------------------------------------------------------------------------------

  lemma {:induction false} NetWithoutGroup(rows: seq<TxRow>, g: int, p: int, s: string)
    ensures NetQty(EventsOf(rows, p, s)) == NetQty(EventsOf(WithoutGroup(rows, g), p, s)) + NetQty(EventsOf(Legs(rows, g), p, s))
    ensures NetUsd(EventsOf(rows, p, s)) == NetUsd(EventsOf(WithoutGroup(rows, g), p, s)) + NetUsd(EventsOf(Legs(rows, g), p, s))
  {
    if rows != [] {
      NetWithoutGroup(rows[1..], g, p, s);
      var first := [rows[0]];
      var out := rows[0].group == Some(g);
      EventsConcat(if out then [] else first, WithoutGroup(rows[1..], g), p, s);
      EventsConcat(if out then first else [], Legs(rows[1..], g), p, s);
      NetAppend(EventsOf(if out then [] else first, p, s), EventsOf(WithoutGroup(rows[1..], g), p, s));
      NetAppend(EventsOf(if out then first else [], p, s), EventsOf(Legs(rows[1..], g), p, s));
      assert rows == first + rows[1..];
      EventsConcat(first, rows[1..], p, s);
      NetAppend(EventsOf(first, p, s), EventsOf(rows[1..], p, s));
    }
  }

  /** What a pair moves, as events of one of its two holdings. */
  lemma PairNets(legs: seq<TxRow>, p: int, s: string)
    requires PairOk(legs) && s == legs[0].symbol
    ensures p == legs[0].portfolio ==> NetQty(EventsOf(legs, p, s)) == -legs[0].amount && NetUsd(EventsOf(legs, p, s)) == -legs[0].usd
    ensures p == legs[1].portfolio ==> NetQty(EventsOf(legs, p, s)) == legs[0].amount && NetUsd(EventsOf(legs, p, s)) == legs[0].usd
  {
    assert legs == [legs[0], legs[1]] && legs[1..] == [legs[1]] && legs[1..][1..] == [];
    var e := if p == legs[0].portfolio then ToEvent(legs[0]) else ToEvent(legs[1]);
    if p == legs[0].portfolio || p == legs[1].portfolio {
      assert EventsOf(legs[1..], p, s) == if p == legs[1].portfolio then [e] else [];
      assert EventsOf(legs, p, s) == [e];
      assert [e][1..] == [];
    }
  }

  ghost predicate LegOf(db: Db, p: int, id: int, g: int) {
    var i := IndexOf(db.rows, id);
    i < |db.rows| && db.rows[i].portfolio == p && db.rows[i].group == Some(g)
  }

  /** Deleting a leg, whichever of the two, deletes the group and re-projects both holdings. */
  lemma DeleteLegSettles(db: Db, p: int, id: int, g: int)
    requires p in db.portfolios && db.portfolios[p].kind == Manual && LegOf(db, p, id, g) && PairsOk(db.rows)
    ensures var r, legs := DeleteTransaction(db, p, id), Legs(db.rows, g);
            && r.Ok? && r.value.rows == WithoutGroup(db.rows, g) && PairOk(legs)
            && forall leg :: leg in legs ==> Settled(r.value, leg.portfolio, leg.symbol) && TotalOk(r.value, leg.portfolio)
  {
    var legs, row := Legs(db.rows, g), db.rows[IndexOf(db.rows, id)];
    LegsMembers(db.rows, g, row);
    assert PairOk(legs);
    var targets, totals := GroupTargets(db.rows, g), GroupPortfolios(db.rows, g);
    ResettleSettles(db.(rows := WithoutGroup(db.rows, g)), targets, totals);
    forall leg | leg in legs ensures (leg.portfolio, leg.symbol) in targets && leg.portfolio in totals {
      LegsMembers(db.rows, g, leg);
    }
  }

  lemma DeleteLegKeepsLot(db: Db, p: int, id: int, g: int, q: int, s: string)
    requires p in db.portfolios && db.portfolios[p].kind == Manual && LegOf(db, p, id, g) && HasAsset(db, q, s)
    ensures var db' := DeleteTransaction(db, p, id).value;
            HasAsset(db', q, s) && AssetAt(db', q, s).lot == AssetAt(db, q, s).lot
  {
    hide EventsOf, Legs, WithoutGroup, Project, History;
  }

  /** What one holding of the pair loses with the group. */
  lemma LegGone(db: Db, p: int, id: int, g: int, leg: TxRow)
    requires p in db.portfolios && db.portfolios[p].kind == Manual && LegOf(db, p, id, g) && PairsOk(db.rows)
    requires leg in Legs(db.rows, g) && HasAsset(db, leg.portfolio, leg.symbol) && Balanced(db, leg.portfolio, leg.symbol)
    ensures var db', q, s := DeleteTransaction(db, p, id).value, leg.portfolio, leg.symbol;
            && BalanceAt(db', q, s) == BalanceAt(db, q, s) - NetQty(EventsOf(Legs(db.rows, g), q, s))
            && DepositAt(db', q, s) == DepositAt(db, q, s) - NetUsd(EventsOf(Legs(db.rows, g), q, s))
  {
    hide DeleteTransaction, EventsOf, NetQty, NetUsd, Legs, WithoutGroup, PairsOk, LegOf, Settled, TotalOk;
    DeleteLegSettles(db, p, id, g);
    var db', q, s := DeleteTransaction(db, p, id).value, leg.portfolio, leg.symbol;
    NetWithoutGroup(db.rows, g, q, s);
    DeleteLegKeepsLot(db, p, id, g, q, s);
    SettledIsBalanced(db', q, s);
  }

  /**
    Deleting either leg, at any later point, moves the units and the net deposit back: the source
    gains what the destination loses.
   */
  lemma DeleteLegConserves(db: Db, p: int, id: int, g: int)
    requires p in db.portfolios && db.portfolios[p].kind == Manual && LegOf(db, p, id, g) && PairsOk(db.rows)
    requires forall leg :: leg in Legs(db.rows, g) ==>
      HasAsset(db, leg.portfolio, leg.symbol) && Balanced(db, leg.portfolio, leg.symbol)
    ensures PairOk(Legs(db.rows, g)) && DeleteTransaction(db, p, id).Ok?
    ensures var db', a, b := DeleteTransaction(db, p, id).value, Legs(db.rows, g)[0], Legs(db.rows, g)[1];
            && BalanceAt(db', a.portfolio, a.symbol) == BalanceAt(db, a.portfolio, a.symbol) + a.amount
            && BalanceAt(db', b.portfolio, b.symbol) == BalanceAt(db, b.portfolio, b.symbol) - a.amount
            && DepositAt(db', a.portfolio, a.symbol) == DepositAt(db, a.portfolio, a.symbol) + a.usd
            && DepositAt(db', b.portfolio, b.symbol) == DepositAt(db, b.portfolio, b.symbol) - a.usd
  {
    hide DeleteTransaction, BalanceAt, DepositAt, EventsOf, Balanced;
    DeleteLegSettles(db, p, id, g);
    var legs := Legs(db.rows, g);
    LegGone(db, p, id, g, legs[0]);
    LegGone(db, p, id, g, legs[1]);
    PairNets(legs, legs[0].portfolio, legs[0].symbol);
    PairNets(legs, legs[1].portfolio, legs[0].symbol);
  }

  lemma {:induction false} WithoutFreshGroup(rows: seq<TxRow>, g: int)
    requires Legs(rows, g) == []
    ensures WithoutGroup(rows, g) == rows
  {
    if rows != [] {
      WithoutFreshGroup(rows[1..], g);
    }
  }

  lemma {:induction false} WithoutGroupConcat(xs: seq<TxRow>, ys: seq<TxRow>, g: int)
    ensures WithoutGroup(xs + ys, g) == WithoutGroup(xs, g) + WithoutGroup(ys, g)
  {
    if xs == [] {
      assert xs + ys == ys;
    } else {
      assert (xs + ys)[1..] == xs[1..] + ys;
      WithoutGroupConcat(xs[1..], ys, g);
    }
  }

  lemma {:induction false} IndexOfAppended(rows: seq<TxRow>, more: seq<TxRow>, id: int)
    requires forall r :: r in rows ==> r.id != id
    ensures IndexOf(rows + more, id) == |rows| + IndexOf(more, id)
  {
    if rows == [] {
      assert rows + more == more;
    } else {
      assert (rows + more)[0] == rows[0] && (rows + more)[1..] == rows[1..] + more;
      IndexOfAppended(rows[1..], more, id);
    }
  }

  lemma PairTargets(rows: seq<TxRow>, out: TxRow, back: TxRow, g: int)
    requires Legs(rows, g) == [] && out.group == back.group == Some(g) && out.kind == back.kind == Native
    ensures GroupTargets(rows + [out, back], g) == {(out.portfolio, out.symbol), (back.portfolio, back.symbol)}
    ensures GroupPortfolios(rows + [out, back], g) == {out.portfolio, back.portfolio}
  {
    var all := rows + [out, back];
    assert forall r :: r in all && r.group == Some(g) <==> r == out || r == back by {
      hide Legs;
      assert out in all && back in all;
      forall r | r in all && r.group == Some(g) ensures r == out || r == back {
        LegsMembers(rows, g, r);
      }
    }
    hide Legs;
  }

  lemma WithoutPair(rows: seq<TxRow>, out: TxRow, back: TxRow, g: int)
    requires Legs(rows, g) == [] && out.group == back.group == Some(g)
    ensures WithoutGroup(rows + [out, back], g) == rows
  {
    WithoutFreshGroup(rows, g);
    WithoutGroupConcat(rows, [out, back], g);
    assert [out, back][1..] == [back] && [back][1..] == [];
    assert WithoutGroup([out, back], g) == WithoutGroup([back], g) == [];
  }

  /** A group is deleted through any row that carries it. */
  lemma DeleteGroup(db: Db, p: int, id: int, g: int)
    requires p in db.portfolios && db.portfolios[p].kind == Manual && LegOf(db, p, id, g)
    ensures DeleteTransaction(db, p, id)
         == Ok(Resettle(db.(rows := WithoutGroup(db.rows, g)), GroupTargets(db.rows, g), GroupPortfolios(db.rows, g)))
  {
  }

  /** Deleting a leg right after the move, before looking at what the recalculations yield. */
  lemma DeleteMovedLeg(db: Db, src: int, dst: int, s: string, amount: real, usd: real, ts: int, g: int, fromDest: bool)
    requires HasAsset(db, src, s) && dst in db.portfolios && db.portfolios[dst].kind == Manual && src != dst
    requires Legs(db.rows, g) == [] && IdsOk(db.rows, db.nextId)
    ensures var raw := WithLegs(db, src, dst, s, amount, usd, ts, g);
            var db', both, two := Moved(db, src, dst, s, amount, usd, ts, g), {(src, s), (dst, s)}, {src, dst};
            var p, id := if fromDest then dst else src, if fromDest then db.nextId + 1 else db.nextId;
            && p in db'.portfolios
            && DeleteTransaction(db', p, id) == Ok(Resettle(Resettle(raw, both, two).(rows := db.rows), both, two))
  {
    hide DeleteTransaction, GroupTargets, GroupPortfolios, WithoutGroup, Total, ResettledAssets;
    var out := Leg(src, s, Sell, amount, usd, ts, g).(id := db.nextId);
    var back := Leg(dst, s, Buy, amount, usd, ts, g).(id := db.nextId + 1);
    var db' := Moved(db, src, dst, s, amount, usd, ts, g);
    var p, id := if fromDest then dst else src, if fromDest then db.nextId + 1 else db.nextId;
    assert db'.rows == db.rows + [out, back] by {
      assert db.rows + [out] + [back] == db.rows + [out, back];
    }
    PairTargets(db.rows, out, back, g);
    WithoutPair(db.rows, out, back, g);
    IndexOfAppended(db.rows, [out, back], id);
    assert [out, back][1..] == [back];
    DeleteGroup(db', p, id, g);
  }

  /** Recalculating what is already consistent changes nothing. */
  lemma ResettleConsistent(db: Db, targets: set<(int, string)>, totals: set<int>)
    requires forall t :: t in targets ==> Settled(db, t.0, t.1)
    requires forall p :: p in totals ==> TotalOk(db, p)
    ensures Resettle(db, targets, totals) == db
  {
    forall p | p in db.portfolios ensures ResettledPortfolio(db, p, targets, totals) == db.portfolios[p] {
      forall s | s in db.portfolios[p].assets && db.portfolios[p].kind == Manual && (p, s) in targets
        ensures ResettledAssets(db, p, targets)[s] == db.portfolios[p].assets[s]
      {
        assert Settled(db, p, s) && HasAsset(db, p, s);
      }
      assert ResettledAssets(db, p, targets) == db.portfolios[p].assets;
    }
    assert ResettledPortfolios(db, targets, totals) == db.portfolios;
  }

  /**
    Transfer, then delete either leg: the tables are those from before the transfer, except that a
    destination asset created by it stays, projected from whatever rows it already had.
   */
  lemma DeleteUndoesTransfer(
    db: Db, cat: Catalog, src: int, dst: int, s: string, amount: real, ts: int, g: int, fromDest: bool)
    requires src in db.portfolios && amount > 0.0 && CreateTransfer(db, cat, src, dst, s, amount, ts, g).Ok?
    requires Legs(db.rows, g) == [] && IdsOk(db.rows, db.nextId)
    requires Settled(db, src, s) && Settled(db, dst, s) && TotalOk(db, src) && TotalOk(db, dst)
    ensures var db' := CreateTransfer(db, cat, src, dst, s, amount, ts, g).value;
            var p, id := if fromDest then dst else src, if fromDest then db.nextId + 1 else db.nextId;
            && p in db'.portfolios && dst in db.portfolios
            && DeleteTransaction(db', p, id)
                 == Ok(Resettle(EnsureAsset(db, dst, s), {(dst, s)}, {dst}).(nextId := db.nextId + 2))
            && (HasAsset(db, dst, s) ==> DeleteTransaction(db', p, id) == Ok(db.(nextId := db.nextId + 2)))
  {
    var usd := CarriedUsd(amount, db.portfolios[src].assets[s].p);
    UndoneMove(db, src, dst, s, amount, usd, ts, g, fromDest);
  }

  lemma UndoneMove(db: Db, src: int, dst: int, s: string, amount: real, usd: real, ts: int, g: int, fromDest: bool)
    requires HasAsset(db, src, s) && dst in db.portfolios && db.portfolios[dst].kind == Manual && src != dst
    requires Legs(db.rows, g) == [] && IdsOk(db.rows, db.nextId)
    requires Settled(db, src, s) && Settled(db, dst, s) && TotalOk(db, src) && TotalOk(db, dst)
    ensures var db' := Moved(db, src, dst, s, amount, usd, ts, g);
            var p, id := if fromDest then dst else src, if fromDest then db.nextId + 1 else db.nextId;
            && p in db'.portfolios
            && DeleteTransaction(db', p, id)
                 == Ok(Resettle(EnsureAsset(db, dst, s), {(dst, s)}, {dst}).(nextId := db.nextId + 2))
            && (HasAsset(db, dst, s) ==> DeleteTransaction(db', p, id) == Ok(db.(nextId := db.nextId + 2)))
  {
    hide DeleteTransaction, Moved, ResettledPortfolios, EventsOf, IdsOk, Legs, Total;
    var raw := WithLegs(db, src, dst, s, amount, usd, ts, g);
    var both, two := {(src, s), (dst, s)}, {src, dst};
    DeleteMovedLeg(db, src, dst, s, amount, usd, ts, g, fromDest);
    var bare := EnsureAsset(db, dst, s).(nextId := db.nextId + 2);
    assert Resettle(Resettle(raw, both, two).(rows := db.rows), both, two) == Resettle(bare, both, two) by {
      ResettleOtherRows(raw, db.rows, both, two);
    }
    ResettleSourceToo(bare, src, dst, s);
    ResettleIgnoresNextId(EnsureAsset(db, dst, s), db.nextId + 2, {(dst, s)}, {dst});
    if HasAsset(db, dst, s) {
      ResettleConsistent(bare, {(dst, s)}, {dst});
    }
  }

  lemma ResettleIgnoresNextId(db: Db, id: int, targets: set<(int, string)>, totals: set<int>)
    ensures Resettle(db.(nextId := id), targets, totals) == Resettle(db, targets, totals).(nextId := id)
  {
    var db' := db.(nextId := id);
    forall p | p in db.portfolios
      ensures ResettledPortfolio(db', p, targets, totals) == ResettledPortfolio(db, p, targets, totals)
    {
      assert ResettledAssets(db', p, targets) == ResettledAssets(db, p, targets);
    }
    assert ResettledPortfolios(db', targets, totals) == ResettledPortfolios(db, targets, totals);
  }

  /** A recalculation forgets an earlier one that was made on other rows. */
  lemma ResettleOtherRows(db: Db, rows: seq<TxRow>, targets: set<(int, string)>, totals: set<int>)
    requires forall t :: t in targets ==> t.0 in totals
    ensures Resettle(Resettle(db, targets, totals).(rows := rows), targets, totals) == Resettle(db.(rows := rows), targets, totals)
  {
    hide Total, EventsOf;
    var a, b := Resettle(db, targets, totals).(rows := rows), db.(rows := rows);
    forall p | p in db.portfolios
      ensures ResettledPortfolio(a, p, targets, totals) == ResettledPortfolio(b, p, targets, totals)
    {
      assert ResettledAssets(a, p, targets) == ResettledAssets(b, p, targets);
    }
    assert ResettledPortfolios(a, targets, totals) == ResettledPortfolios(b, targets, totals);
  }

  lemma ResettleSourceToo(db: Db, src: int, dst: int, s: string)
    requires src != dst && src in db.portfolios && Settled(db, src, s) && TotalOk(db, src)
    ensures Resettle(db, {(src, s), (dst, s)}, {src, dst}) == Resettle(db, {(dst, s)}, {dst})
  {
    hide Total, EventsOf;
    forall p | p in db.portfolios
      ensures ResettledPortfolio(db, p, {(src, s), (dst, s)}, {src, dst}) == ResettledPortfolio(db, p, {(dst, s)}, {dst})
    {
      if p == src {
        assert s in db.portfolios[p].assets && db.portfolios[p].kind == Manual ==> HasAsset(db, src, s);
        assert ResettledAssets(db, p, {(src, s), (dst, s)}) == db.portfolios[p].assets;
      }
      assert ResettledAssets(db, p, {(src, s), (dst, s)}) == ResettledAssets(db, p, {(dst, s)});
      assert p == src ==> ResettledAssets(db, p, {(dst, s)}) == db.portfolios[p].assets;
    }
    assert ResettledPortfolios(db, {(src, s), (dst, s)}, {src, dst}) == ResettledPortfolios(db, {(dst, s)}, {dst});
  }
}
