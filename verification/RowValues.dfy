/**
  The dollar value a row carries: a row with an entered price is worth its amount at that price,
  through every create, patch and import, so the net deposits that add the values up never go stale.
 */
module RowValues {
  import opened Ledger
  import opened Bulk
  import opened LedgerRuns

  /** NFT rows carry no value; a row with an entered price carries amount times price. */
  ghost predicate Priced(r: TxRow) {
    && (r.kind == Nft ==> r.usd == 0.0)
    && (r.kind != Nft && r.price.Some? ==> r.usd == r.amount * r.price.value)
  }

  ghost predicate AllPriced(rows: seq<TxRow>) { forall r :: r in rows ==> Priced(r) }

  lemma NewRowPriced(id: int, p: int, b: NewTx, market: real)
    ensures Priced(NewRow(id, p, b, market))
  {
  }

  /** A patch of amount, symbol or price revalues the row; one of direction or time alone does not need to. */
  lemma PatchedRowPriced(r: TxRow, b: Patch, market: real)
    requires Priced(r)
    ensures Priced(PatchedRow(r, b, market))
  {
    var now := PatchedRow(r, b, market);
    if r.kind != Nft && now.price.Some? && (b.amount.Some? || b.symbol.Some? || b.price.Some?) {
      assert now.usd == UsdValue(now.amount, now.price, market);
    }
  }

  lemma {:induction false} WithoutGroupPriced(rows: seq<TxRow>, g: int)
    requires AllPriced(rows)
    ensures AllPriced(WithoutGroup(rows, g))
  {
    if rows != [] {
      assert forall r :: r in rows[1..] ==> r in rows;
      WithoutGroupPriced(rows[1..], g);
      assert rows[0] in rows;
    }
  }

  lemma {:induction false} InsertAllPriced(db: Db, p: int, ps: seq<Prepared>)
    requires p in db.portfolios && AllPriced(db.rows)
    ensures AllPriced(InsertAll(db, p, ps).rows)
    decreases ps
  {
    if ps != [] {
      NewRowPriced(db.nextId, p, ps[0].tx, 0.0);
      InsertAllPriced(InsertRow(db, p, ps[0]), p, ps[1..]);
    }
  }

  lemma UpdatePriced(db: Db, cat: Catalog, market: real, p: int, id: int, b: Patch)
    requires p in db.portfolios && AllPriced(db.rows) && UpdateTransaction(db, cat, market, p, id, b).Ok?
    ensures AllPriced(UpdateTransaction(db, cat, market, p, id, b).value.rows)
  {
    hide PatchedRow, Priced, Resettle;
    var i := IndexOf(db.rows, id);
    var was, now := db.rows[i], PatchedRow(db.rows[i], b, market);
    assert was in db.rows;
    PatchedRowPriced(was, b, market);
    ResettledRows(db.(rows := db.rows[i := now]), {(p, was.symbol), (p, now.symbol)}, {p});
    forall r | r in db.rows[i := now] ensures Priced(r) {
      assert r in db.rows || r == now;
    }
  }

  lemma ResettledRows(db: Db, targets: set<(int, string)>, totals: set<int>)
    ensures Resettle(db, targets, totals).rows == db.rows
  {
  }

  lemma DeletePriced(db: Db, p: int, id: int)
    requires p in db.portfolios && AllPriced(db.rows) && DeleteTransaction(db, p, id).Ok?
    ensures AllPriced(DeleteTransaction(db, p, id).value.rows)
  {
    hide Priced, Resettle;
    var i := IndexOf(db.rows, id);
    var r := db.rows[i];
    match r.group
    case Some(g) =>
      WithoutGroupPriced(db.rows, g);
      ResettledRows(db.(rows := WithoutGroup(db.rows, g)), GroupTargets(db.rows, g), GroupPortfolios(db.rows, g));
    case None =>
      ResettledRows(db.(rows := db.rows[..i] + db.rows[i+1..]), {(p, r.symbol)}, {p});
  }

  lemma ApplyKeepsPriced(db: Db, cat: Catalog, t: Call)
    requires AllPriced(db.rows)
    ensures AllPriced(Apply(db, cat, t).rows)
  {
    hide Priced, Resettle, UpdateTransaction, DeleteTransaction, CarriedUsd;
    if t.p in db.portfolios && Outcome(db, cat, t).Some? {
      match t.request
      case Create(b, _, market) =>
        NewRowPriced(db.nextId, t.p, b, market);
        ResettledRows(Append(EnsureAsset(db, t.p, b.symbol), NewRow(0, t.p, b, market)), {(t.p, b.symbol)}, {t.p});
      case Update(id, patch, market) => UpdatePriced(db, cat, market, t.p, id, patch);
      case Delete(id) => DeletePriced(db, t.p, id);
      case Import(_, lines, free) =>
        var ins := ToInsert(ScanRows(db, cat, free, t.p, StartScan(db, t.p), lines, 0).prepared);
        InsertAllPriced(db, t.p, ins);
        ResettledRows(InsertAll(db, t.p, ins), Touched(t.p, ins), {t.p});
      case Move(dst, s, amount, ts, g) =>
        MovePriced(db, t.p, dst, s, amount, CarriedUsd(amount, db.portfolios[t.p].assets[s].p), ts, g);
      case _ => OtherRows(db, cat, t);
    }
  }

  lemma MovePriced(db: Db, src: int, dst: int, s: string, amount: real, usd: real, ts: int, g: int)
    requires dst in db.portfolios && AllPriced(db.rows)
    ensures AllPriced(Moved(db, src, dst, s, amount, usd, ts, g).rows)
  {
  }

  lemma OtherRows(db: Db, cat: Catalog, t: Call)
    requires t.request.Open? || t.request.Edit? || t.request.Remove?
    ensures Apply(db, cat, t).rows == db.rows
  {
  }

  /** In every run, patches and imports included, each row with an entered price is worth exactly that. */
  lemma {:induction false} RunKeepsPriced(db: Db, cat: Catalog, ts: seq<Call>)
    requires AllPriced(db.rows)
    ensures AllPriced(Run(db, cat, ts).rows)
    decreases ts
  {
    hide AllPriced, Apply;
    if ts != [] {
      ApplyKeepsPriced(db, cat, ts[0]);
      RunKeepsPriced(Apply(db, cat, ts[0]), cat, ts[1..]);
    }
  }
}
