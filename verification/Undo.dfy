/** Deleting the row that a create has just logged takes the create back. */
module Undo {
  import opened Options
  import opened Ledger
  import opened Transfers

  /** What remains of the request: the id that was used, and the asset row if the create made it. */
  ghost function Remains(db: Db, p: int, b: NewTx): Db
    requires p in db.portfolios
  {
    var next := db.(nextId := db.nextId + 1);
    if b.kind == Nft || HasAsset(db, p, b.symbol) then next
    else Resettle(EnsureAsset(next, p, b.symbol), {(p, b.symbol)}, {p})
  }

  lemma RowFound(rows: seq<TxRow>, r: TxRow, next: int)
    requires IdsOk(rows, next) && r.id == next
    ensures var all, i := rows + [r], IndexOf(rows + [r], next);
            i == |rows| && all[i] == r && all[..i] + all[i+1..] == rows
  {
    IndexOfAppended(rows, [r], next);
  }

  /** A plain row is deleted by its id; its holding is recalculated unless it is an NFT row. */
  lemma DeletePlain(db: Db, p: int, rows: seq<TxRow>, r: TxRow)
    requires p in db.portfolios && db.portfolios[p].kind == Manual && r.group.None? && r.portfolio == p
    requires db.rows == rows + [r] && IdsOk(rows, r.id)
    ensures DeleteTransaction(db, p, r.id) == Ok(
              if r.kind == Nft then db.(rows := rows) else Resettle(db.(rows := rows), {(p, r.symbol)}, {p}))
  {
    hide Resettle;
    RowFound(rows, r, r.id);
  }

  lemma ResettledShape(db: Db, targets: set<(int, string)>, totals: set<int>, p: int)
    requires p in db.portfolios
    ensures var r := Resettle(db, targets, totals);
            r.rows == db.rows && r.nextId == db.nextId && p in r.portfolios && r.portfolios[p].kind == db.portfolios[p].kind
  {
  }

  lemma DeleteUndoesCreate(db: Db, cat: Catalog, free: bool, market: real, p: int, b: NewTx)
    requires p in db.portfolios && CreateTransaction(db, cat, free, market, p, b).Ok? && IdsOk(db.rows, db.nextId)
    requires b.kind != Nft && HasAsset(db, p, b.symbol) ==> Settled(db, p, b.symbol) && TotalOk(db, p)
    ensures var db' := CreateTransaction(db, cat, free, market, p, b).value;
            p in db'.portfolios && DeleteTransaction(db', p, db.nextId) == Ok(Remains(db, p, b))
  {
    hide Resettle, DeleteTransaction, IdsOk, Settled, TotalOk;
    var r := NewRow(0, p, b, market).(id := db.nextId);
    var raw := Append(if b.kind == Nft then db else EnsureAsset(db, p, b.symbol), NewRow(0, p, b, market));
    if b.kind == Nft {
      DeletePlain(raw, p, db.rows, r);
    } else {
      var one, total := {(p, b.symbol)}, {p};
      ResettledShape(raw, one, total, p);
      DeletePlain(Resettle(raw, one, total), p, db.rows, r);
      ResettleOtherRows(raw, db.rows, one, total);
      var bare := EnsureAsset(db.(nextId := db.nextId + 1), p, b.symbol);
      assert raw.(rows := db.rows) == bare;
      if HasAsset(db, p, b.symbol) {
        SettledAgain(db, p, b.symbol);
        ResettleConsistent(bare, one, total);
      }
    }
  }

  lemma SettledAgain(db: Db, p: int, s: string)
    requires Settled(db, p, s) && TotalOk(db, p)
    ensures Settled(db.(nextId := db.nextId + 1), p, s) && TotalOk(db.(nextId := db.nextId + 1), p)
  {
  }
}
