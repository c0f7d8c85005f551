/**
  What each request does to a holding, in the request's own numbers: which row the table gains or keeps,
  and by how much units and net deposit move.
 */
module Effects {
  import opened Options
  import opened Recalc
  import opened Ledger
  import opened LedgerRuns
  import opened Transfers

  /** Units and dollars of a holding, those of rows that a removed asset left behind included. */
  ghost function Units(db: Db, p: int, s: string): real { BalanceAt(db, p, s) + LeftoverQty(db, p, s) }

  ghost function Dollars(db: Db, p: int, s: string): real { DepositAt(db, p, s) + LeftoverUsd(db, p, s) }

  ghost function LotAt(db: Db, p: int, s: string): Lot {
    if HasAsset(db, p, s) then AssetAt(db, p, s).lot else Lot(0.0, None)
  }

  /** With balanced tables both are the lot plus the rows. */
  lemma UnitsAreRows(db: Db, p: int, s: string)
    requires Balanced(db, p, s)
    ensures Units(db, p, s) == LotAt(db, p, s).balance + NetQty(EventsOf(db.rows, p, s))
    ensures Dollars(db, p, s) == LotAt(db, p, s).cost.GetOr(0.0) + NetUsd(EventsOf(db.rows, p, s))
  {
  }

  lemma OneRow(r: TxRow, p: int, s: string)
    ensures NetQty(EventsOf([r], p, s)) == if Matches(r, p, s) then Signed(r.dir, r.amount) else 0.0
    ensures NetUsd(EventsOf([r], p, s)) == if Matches(r, p, s) then Signed(r.dir, r.usd) else 0.0
  {
    assert EventsOf([r], p, s) == if Matches(r, p, s) then [ToEvent(r)] else [];
  }

  /** Adding, replacing and removing one row move the sums by that row. */
  lemma RowMoves(rows: seq<TxRow>, i: nat, now: TxRow, p: int, s: string)
    requires i < |rows|
    ensures NetQty(EventsOf(rows, p, s))
      == NetQty(EventsOf(rows[..i], p, s)) + NetQty(EventsOf([rows[i]], p, s)) + NetQty(EventsOf(rows[i+1..], p, s))
    ensures NetUsd(EventsOf(rows, p, s))
      == NetUsd(EventsOf(rows[..i], p, s)) + NetUsd(EventsOf([rows[i]], p, s)) + NetUsd(EventsOf(rows[i+1..], p, s))
    ensures NetQty(EventsOf(rows[i := now], p, s)) - NetQty(EventsOf([now], p, s))
      == NetQty(EventsOf(rows, p, s)) - NetQty(EventsOf([rows[i]], p, s)) == NetQty(EventsOf(rows[..i] + rows[i+1..], p, s))
    ensures NetUsd(EventsOf(rows[i := now], p, s)) - NetUsd(EventsOf([now], p, s))
      == NetUsd(EventsOf(rows, p, s)) - NetUsd(EventsOf([rows[i]], p, s)) == NetUsd(EventsOf(rows[..i] + rows[i+1..], p, s))
  {
    hide EventsOf, NetQty, NetUsd;
    EventsSplit(rows, i, p, s);
    EventsUpdate(rows, i, now, p, s);
    EventsRemove(rows, i, p, s);
    var xs, ys := EventsOf(rows[..i], p, s), EventsOf(rows[i+1..], p, s);
    NetAppend(xs, ys);
    NetAppend(xs, EventsOf([rows[i]], p, s));
    NetAppend(xs + EventsOf([rows[i]], p, s), ys);
    NetAppend(xs, EventsOf([now], p, s));
    NetAppend(xs + EventsOf([now], p, s), ys);
  }

  // ---------------------------------------------------------------------------------------------
  // Creating, patching and deleting a row
  // ---------------------------------------------------------------------------------------------

  /** A create logs its body, priced as entered or at the market, and moves its holding by it. */
  lemma CreateMoves(db: Db, cat: Catalog, free: bool, market: real, p: int, b: NewTx)
    requires p in db.portfolios && CreateTransaction(db, cat, free, market, p, b).Ok?
    ensures var db' := CreateTransaction(db, cat, free, market, p, b).value;
            var usd := if b.kind == Nft then 0.0 else b.amount * (if b.price.Some? then b.price.value else market);
            && db'.rows == db.rows + [TxRow(db.nextId, p, b.kind, b.symbol, b.dir, b.amount, usd, b.price, b.ts, None, b.hash)]
            && (b.kind != Nft && Balanced(db, p, b.symbol) ==>
                  && HasAsset(db', p, b.symbol)
                  && Units(db', p, b.symbol) == Units(db, p, b.symbol) + Signed(b.dir, b.amount)
                  && Dollars(db', p, b.symbol) == Dollars(db, p, b.symbol) + Signed(b.dir, usd))
  {
    hide EventsOf, NetQty, NetUsd, Resettle, Balanced, NewRow, Matches, UsdValue;
    var db' := CreateTransaction(db, cat, free, market, p, b).value;
    var x := NewRow(0, p, b, market).(id := db.nextId);
    NewRowIs(db.nextId, p, b, market);
    CreatedLot(db, market, p, b);
    if b.kind != Nft && Balanced(db, p, b.symbol) {
      var s := b.symbol;
      NetAppend(EventsOf(db.rows, p, s), EventsOf([x], p, s));
      EventsConcat(db.rows, [x], p, s);
      OneRow(x, p, s);
      UnitsAreRows(db, p, s);
      UnitsAreRows(db', p, s);
      assert LotAt(db', p, s) == LotAt(db, p, s);
      assert Units(db', p, s) == Units(db, p, s) + Signed(b.dir, b.amount);
      assert Dollars(db', p, s) == Dollars(db, p, s) + Signed(b.dir, x.usd);
    }
  }

  lemma NewRowIs(id: int, p: int, b: NewTx, market: real)
    ensures var usd := if b.kind == Nft then 0.0 else b.amount * (if b.price.Some? then b.price.value else market);
            var x := NewRow(0, p, b, market).(id := id);
            && x == TxRow(id, p, b.kind, b.symbol, b.dir, b.amount, usd, b.price, b.ts, None, b.hash)
            && (b.kind != Nft ==> Matches(x, p, b.symbol))
  {
  }

  lemma CreatedLot(db: Db, market: real, p: int, b: NewTx)
    requires p in db.portfolios && db.portfolios[p].kind == Manual
    ensures var db' := Created(db, market, p, b);
            && db'.rows == db.rows + [NewRow(0, p, b, market).(id := db.nextId)]
            && (b.kind != Nft ==>
                  && HasAsset(db', p, b.symbol) && LotAt(db', p, b.symbol) == LotAt(db, p, b.symbol)
                  && Balanced(db', p, b.symbol))
  {
    hide EventsOf, NetQty, NetUsd, Project;
    if b.kind != Nft {
      var mid := Append(EnsureAsset(db, p, b.symbol), NewRow(0, p, b, market));
      ResettleSettles(mid, {(p, b.symbol)}, {p});
      SettledIsBalanced(Created(db, market, p, b), p, b.symbol);
    }
  }

  /** The row a patch leaves: patched fields replaced, dollars renewed when amount, token or price is patched. */
  function Patched(r: TxRow, b: Patch, market: real): TxRow {
    var amount := if b.amount.Some? then b.amount.value else r.amount;
    var price := if b.price.Some? then b.price else r.price;
    var renewed := b.amount.Some? || b.symbol.Some? || b.price.Some?;
    TxRow(r.id, r.portfolio, r.kind, if b.symbol.Some? then b.symbol.value else r.symbol,
          if b.dir.Some? then b.dir.value else r.dir, amount,
          if renewed then amount * (if price.Some? then price.value else market) else r.usd,
          price, if b.ts.Some? then b.ts.value else r.ts, r.group, r.hash)
  }

  /** A patch takes the old row out of every holding and puts the new one in. */
  lemma UpdateMoves(db: Db, cat: Catalog, market: real, p: int, id: int, b: Patch, s: string)
    requires p in db.portfolios && UpdateTransaction(db, cat, market, p, id, b).Ok? && HasAsset(db, p, s) && Balanced(db, p, s)
    requires db.rows[IndexOf(db.rows, id)].kind != Nft
    ensures var db', was := UpdateTransaction(db, cat, market, p, id, b).value, db.rows[IndexOf(db.rows, id)];
            var now := Patched(was, b, market);
            && db'.rows == db.rows[IndexOf(db.rows, id) := now] && HasAsset(db', p, s)
            && BalanceAt(db', p, s) == BalanceAt(db, p, s)
                 - (if was.symbol == s then Signed(was.dir, was.amount) else 0.0)
                 + (if now.symbol == s then Signed(now.dir, now.amount) else 0.0)
            && DepositAt(db', p, s) == DepositAt(db, p, s)
                 - (if was.symbol == s then Signed(was.dir, was.usd) else 0.0)
                 + (if now.symbol == s then Signed(now.dir, now.usd) else 0.0)
  {
    hide EventsOf, NetQty, NetUsd, Resettle, Balanced;
    var i := IndexOf(db.rows, id);
    var db', was := UpdateTransaction(db, cat, market, p, id, b).value, db.rows[i];
    UpdateKeeps(db, cat, market, p, id, b);
    UpdatedLot(db, cat, market, p, id, b, s);
    RowMoves(db.rows, i, Patched(was, b, market), p, s);
    OneRow(was, p, s);
    OneRow(Patched(was, b, market), p, s);
    UnitsAreRows(db, p, s);
    UnitsAreRows(db', p, s);
  }

  lemma UpdatedLot(db: Db, cat: Catalog, market: real, p: int, id: int, b: Patch, s: string)
    requires p in db.portfolios && UpdateTransaction(db, cat, market, p, id, b).Ok? && HasAsset(db, p, s)
    requires db.rows[IndexOf(db.rows, id)].kind != Nft
    ensures var db', was := UpdateTransaction(db, cat, market, p, id, b).value, db.rows[IndexOf(db.rows, id)];
            && db'.rows == db.rows[IndexOf(db.rows, id) := Patched(was, b, market)]
            && was.portfolio == p && HasAsset(db', p, s) && LotAt(db', p, s) == LotAt(db, p, s)
  {
    hide EventsOf, Project, History;
    var was := db.rows[IndexOf(db.rows, id)];
    assert PatchedRow(was, b, market) == Patched(was, b, market);
  }

  /** Deleting a row that is no transfer leg takes it out again. */
  lemma DeleteMoves(db: Db, p: int, id: int, s: string)
    requires p in db.portfolios && DeleteTransaction(db, p, id).Ok? && HasAsset(db, p, s) && Balanced(db, p, s)
    requires db.rows[IndexOf(db.rows, id)].kind != Nft && db.rows[IndexOf(db.rows, id)].group.None?
    ensures var db', was := DeleteTransaction(db, p, id).value, db.rows[IndexOf(db.rows, id)];
            && db'.rows == db.rows[..IndexOf(db.rows, id)] + db.rows[IndexOf(db.rows, id)+1..] && HasAsset(db', p, s)
            && BalanceAt(db', p, s) == BalanceAt(db, p, s) - (if was.symbol == s then Signed(was.dir, was.amount) else 0.0)
            && DepositAt(db', p, s) == DepositAt(db, p, s) - (if was.symbol == s then Signed(was.dir, was.usd) else 0.0)
  {
    hide EventsOf, NetQty, NetUsd, Resettle, Balanced;
    var i := IndexOf(db.rows, id);
    var db', was := DeleteTransaction(db, p, id).value, db.rows[i];
    DeleteKeeps(db, p, id);
    DeletedLot(db, p, id, s);
    RowMoves(db.rows, i, was, p, s);
    OneRow(was, p, s);
    UnitsAreRows(db, p, s);
    UnitsAreRows(db', p, s);
  }

  lemma DeletedLot(db: Db, p: int, id: int, s: string)
    requires p in db.portfolios && DeleteTransaction(db, p, id).Ok? && HasAsset(db, p, s)
    requires db.rows[IndexOf(db.rows, id)].kind != Nft && db.rows[IndexOf(db.rows, id)].group.None?
    ensures var db' := DeleteTransaction(db, p, id).value;
            && db'.rows == db.rows[..IndexOf(db.rows, id)] + db.rows[IndexOf(db.rows, id)+1..]
            && db.rows[IndexOf(db.rows, id)].portfolio == p
            && HasAsset(db', p, s) && LotAt(db', p, s) == LotAt(db, p, s)
  {
    hide EventsOf, Project, History;
  }

  // ---------------------------------------------------------------------------------------------
  // Opening positions
  // ---------------------------------------------------------------------------------------------

  /** The dollars an entered cost stands for. */
  function Entered(balance: real, mode: CostMode): real { if mode.PerUnit? then balance * mode.price else 0.0 }

  /**
    A new asset holds its entered balance and dollars on top of what rows of the token left behind, so
    its net deposit stays 0 exactly when the dollars cancel.
   */
  lemma OpeningMoves(db: Db, cat: Catalog, free: bool, p: int, s: string, balance: real, mode: CostMode)
    requires p in db.portfolios && AddAsset(db, cat, free, p, s, balance, mode).Ok?
    ensures var db' := AddAsset(db, cat, free, p, s, balance, mode).value;
            && db'.rows == db.rows && HasAsset(db', p, s)
            && BalanceAt(db', p, s) == balance + LeftoverQty(db, p, s)
            && DepositAt(db', p, s) == Entered(balance, mode) + LeftoverUsd(db, p, s)
            && (DepositAt(db', p, s) == 0.0 <==> Entered(balance, mode) == -LeftoverUsd(db, p, s))
            && (AssetAt(db', p, s).lot.cost.Some? <==> mode.PerUnit?)
  {
    hide EventsOf, NetQty, NetUsd, Project;
    SettledIsBalanced(AddAsset(db, cat, free, p, s, balance, mode).value, p, s);
  }

  /** What an edit makes of the opening cost: entered anew, or the same per unit. */
  function EditedCost(lot: Lot, balance: real, mode: Option<CostMode>): real {
    match mode
    case Some(m) => Entered(balance, m)
    case None => if lot.balance > 0.0 then lot.cost.GetOr(0.0) * balance / lot.balance else 0.0
  }

  /** An edit moves the holding by the change of its opening balance and cost. */
  lemma EditMoves(db: Db, p: int, s: string, balance: Option<real>, mode: Option<CostMode>)
    requires HasAsset(db, p, s) && Balanced(db, p, s) && EditOpening(db, p, s, balance, mode).Ok?
    requires balance.Some? || mode.Some?
    ensures var db', lot := EditOpening(db, p, s, balance, mode).value, AssetAt(db, p, s).lot;
            var b := if balance.Some? then balance.value else lot.balance;
            && HasAsset(db', p, s) && db'.rows == db.rows
            && BalanceAt(db', p, s) == BalanceAt(db, p, s) - lot.balance + b
            && DepositAt(db', p, s) == DepositAt(db, p, s) - lot.cost.GetOr(0.0) + EditedCost(lot, b, mode)
  {
    hide EventsOf, NetQty, NetUsd, Project, EditedLot, EditedCost;
    var lot := AssetAt(db, p, s).lot;
    EditedLotIs(lot, balance.GetOr(lot.balance), mode);
    SettledIsBalanced(EditOpening(db, p, s, balance, mode).value, p, s);
  }

  lemma EditedLotIs(lot: Lot, balance: real, mode: Option<CostMode>)
    ensures EditedLot(lot, balance, mode).balance == balance
    ensures EditedLot(lot, balance, mode).cost.GetOr(0.0) == EditedCost(lot, balance, mode)
  {
  }

  // ---------------------------------------------------------------------------------------------
  // Transfers
  // ---------------------------------------------------------------------------------------------

  /** A manual portfolio may move any part of a holding up to all of it, to another one of its owner. */
  lemma TransferGrantedIff(db: Db, cat: Catalog, src: int, dst: int, s: string, amount: real, ts: int, g: int)
    requires HasAsset(db, src, s) && HasPortfolio(db, dst, db.portfolios[src].owner) && dst != src && s in cat && amount > 0.0
    ensures CreateTransfer(db, cat, src, dst, s, amount, ts, g).Ok? <==> amount <= BalanceAt(db, src, s)
  {
  }

  /** Both legs are logged with one amount, moment, group and dollar value: the source's net deposit per unit. */
  lemma TransferLogs(db: Db, cat: Catalog, src: int, dst: int, s: string, amount: real, ts: int, g: int)
    requires src in db.portfolios && amount > 0.0 && CreateTransfer(db, cat, src, dst, s, amount, ts, g).Ok?
    ensures var r := CreateTransfer(db, cat, src, dst, s, amount, ts, g).value;
            && HasAsset(db, src, s) && BalanceAt(db, src, s) > 0.0
            && var usd := amount * DepositAt(db, src, s) / BalanceAt(db, src, s);
               && r.rows == db.rows + [TxRow(db.nextId, src, Native, s, Sell, amount, usd, None, ts, Some(g), None),
                                       TxRow(db.nextId + 1, dst, Native, s, Buy, amount, usd, None, ts, Some(g), None)]
               && r.nextId == db.nextId + 2
  {
    hide Project, EventsOf;
    var usd := CarriedUsd(amount, AssetAt(db, src, s).p);
    var out := Leg(src, s, Sell, amount, usd, ts, g).(id := db.nextId);
    var back := Leg(dst, s, Buy, amount, usd, ts, g).(id := db.nextId + 1);
    assert WithLegs(db, src, dst, s, amount, usd, ts, g).rows == db.rows + [out] + [back] == db.rows + [out, back];
    assert usd == amount * DepositAt(db, src, s) / BalanceAt(db, src, s);
    assert CreateTransfer(db, cat, src, dst, s, amount, ts, g).value.rows == WithLegs(db, src, dst, s, amount, usd, ts, g).rows;
    assert out == TxRow(db.nextId, src, Native, s, Sell, amount, usd, None, ts, Some(g), None);
    assert back == TxRow(db.nextId + 1, dst, Native, s, Buy, amount, usd, None, ts, Some(g), None);
  }

  ghost predicate HasPortfolio(db: Db, p: int, owner: int) {
    p in db.portfolios && db.portfolios[p].kind == Manual && db.portfolios[p].owner == owner
  }

  /** Moving all of it leaves no units and no net deposit behind. */
  lemma MovingAllLeavesNothing(db: Db, cat: Catalog, src: int, dst: int, s: string, ts: int, g: int)
    requires HasAsset(db, src, s) && HasPortfolio(db, dst, db.portfolios[src].owner) && dst != src && s in cat
    requires BalanceAt(db, src, s) > 0.0 && Balanced(db, src, s) && Balanced(db, dst, s)
    ensures var r := CreateTransfer(db, cat, src, dst, s, BalanceAt(db, src, s), ts, g);
            && r.Ok? && BalanceAt(r.value, src, s) == 0.0 && DepositAt(r.value, src, s) == 0.0
            && BalanceAt(r.value, dst, s) == Units(db, dst, s) + BalanceAt(db, src, s)
            && DepositAt(r.value, dst, s) == Dollars(db, dst, s) + DepositAt(db, src, s)
  {
    hide Resettle, CreateTransfer, EventsOf, NetQty, NetUsd, Balanced, Moved;
    var amount := BalanceAt(db, src, s);
    TransferGrantedIff(db, cat, src, dst, s, amount, ts, g);
    TransferConserves(db, cat, src, dst, s, amount, ts, g);
    TransferIsMove(db, cat, src, dst, s, amount, ts, g);
    var usd := CarriedUsd(amount, AssetAt(db, src, s).p);
    MovedAssets(db, src, dst, s, amount, usd, ts, g);
    assert usd == DepositAt(db, src, s);
  }

  // ---------------------------------------------------------------------------------------------
  // Two rows of one moment
  // ---------------------------------------------------------------------------------------------

  /** Bought and sold at one timestamp: the gain is the difference, and nothing is left. */
  lemma BoughtThenSold(rows: seq<TxRow>, nextId: int, p: int, s: string)
    requires |rows| == 2 && IdsOk(rows, nextId) && Matches(rows[0], p, s) && Matches(rows[1], p, s)
    requires rows[0].dir == Buy && rows[1].dir == Sell && rows[1].group.None?
    requires rows[0].amount == rows[1].amount > 0.0 && rows[0].ts == rows[1].ts
    ensures var r := Project(Lot(0.0, None), History(rows, p, s));
            && r.balance == 0.0 && r.costBasis == 0.0 && r.avgCost.None?
            && r.realizedPnl == rows[1].usd - rows[0].usd && r.netDeposit == rows[0].usd - rows[1].usd
  {
    var b, e := ToEvent(rows[0]), ToEvent(rows[1]);
    assert rows == [rows[0], rows[1]];
    TwoRowHistory(rows[0], rows[1], p, s);
    var a := Start(Lot(0.0, None));
    assert [b, e][1..] == [e] && [e][1..] == [];
    assert Fold(a, [b, e]) == Fold(Step(a, b), [e]) == Step(Step(a, b), e);
    assert Step(a, b) == Acc(b.amount, b.amount, b.usd, 0.0, b.usd);
    SaleGain(b.amount, b.usd, e.usd);
  }

  lemma SaleGain(amount: real, paid: real, got: real)
    requires amount > 0.0
    ensures amount * (got / amount - paid / amount) == got - paid && amount * (paid / amount) == paid
  {
  }
}
