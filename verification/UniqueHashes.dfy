/**
  No transaction hash is ever logged twice in a portfolio, whatever creates, imports, patches, deletions
  and transfers follow each other.
 */
module UniqueHashes {
  import opened Options
  import opened Recalc
  import opened Ledger
  import opened Bulk
  import opened LedgerRuns
  import opened Imports

  ghost predicate Clash(a: TxRow, b: TxRow) { a.portfolio == b.portfolio && a.hash.Some? && a.hash == b.hash }

  ghost predicate NoClash(rows: seq<TxRow>) { forall i, j :: 0 <= i < j < |rows| ==> !Clash(rows[i], rows[j]) }

  lemma AppendedNoClash(rows: seq<TxRow>, x: TxRow)
    requires NoClash(rows) && !HashTaken(rows, x.portfolio, x.hash)
    ensures NoClash(rows + [x])
  {
  }

  lemma ReplacedNoClash(rows: seq<TxRow>, i: nat, now: TxRow)
    requires NoClash(rows) && i < |rows| && now.portfolio == rows[i].portfolio && now.hash == rows[i].hash
    ensures NoClash(rows[i := now])
  {
  }

  lemma {:induction false} WithoutGroupNoClash(rows: seq<TxRow>, g: int)
    requires NoClash(rows)
    ensures NoClash(WithoutGroup(rows, g)) && forall r :: r in WithoutGroup(rows, g) ==> r in rows
  {
    if rows != [] {
      WithoutGroupNoClash(rows[1..], g);
      assert forall r :: r in rows[1..] ==> !Clash(rows[0], r);
    }
  }

  // ---------------------------------------------------------------------------------------------
  // Imports
  // ---------------------------------------------------------------------------------------------

  /** The hashes of a batch are new to the portfolio, pairwise different, and among those the pass has seen. */
  ghost predicate FreshBatch(db: Db, p: int, ps: seq<Prepared>, seen: set<string>) {
    && (forall k :: 0 <= k < |ps| && ps[k].tx.hash.Some? ==> ps[k].tx.hash.value in seen && !HashTaken(db.rows, p, ps[k].tx.hash))
    && forall i, j :: 0 <= i < j < |ps| && ps[i].tx.hash.Some? ==> ps[i].tx.hash != ps[j].tx.hash
  }

  lemma ScanRowSees(db: Db, cat: Catalog, free: bool, p: int, st: Scan, row: nat, r: CsvRow)
    ensures var st' := ScanRow(db, cat, free, p, st, row, r);
            && st.seen <= st'.seen
            && (st'.prepared == st.prepared
                || (|st'.prepared| == |st.prepared| + 1 && st'.prepared[..|st.prepared|] == st.prepared
                    && var q := st'.prepared[|st.prepared|];
                       !q.duplicate && q.tx.hash.Some? ==>
                         q.tx.hash.value !in st.seen && q.tx.hash.value in st'.seen && !HashTaken(db.rows, p, q.tx.hash)))
  {
    hide HashTaken, CellsOk;
  }

  lemma RowKeepsFresh(db: Db, cat: Catalog, free: bool, p: int, st: Scan, row: nat, r: CsvRow)
    requires FreshBatch(db, p, ToInsert(st.prepared), st.seen)
    ensures var st' := ScanRow(db, cat, free, p, st, row, r); FreshBatch(db, p, ToInsert(st'.prepared), st'.seen)
  {
    hide ScanRow, HashTaken, ToInsert;
    var st' := ScanRow(db, cat, free, p, st, row, r);
    ScanRowSees(db, cat, free, p, st, row, r);
    if st'.prepared != st.prepared {
      var q := st'.prepared[|st.prepared|];
      ToInsertSnoc(st.prepared, q);
      assert st'.prepared == st.prepared + [q];
    }
  }

  lemma {:induction false} ScanKeepsFresh(db: Db, cat: Catalog, free: bool, p: int, st: Scan, rows: seq<CsvRow>, i: nat)
    requires i <= |rows| && FreshBatch(db, p, ToInsert(st.prepared), st.seen)
    ensures var st' := ScanRows(db, cat, free, p, st, rows, i); FreshBatch(db, p, ToInsert(st'.prepared), st'.seen)
    decreases |rows| - i
  {
    hide ScanRow, FreshBatch;
    if i < |rows| {
      RowKeepsFresh(db, cat, free, p, st, i + 1, rows[i]);
      ScanKeepsFresh(db, cat, free, p, ScanRow(db, cat, free, p, st, i + 1, rows[i]), rows, i + 1);
    }
  }

  lemma InsertedNoClash(db: Db, p: int, ps: seq<Prepared>, seen: set<string>)
    requires p in db.portfolios && NoClash(db.rows) && FreshBatch(db, p, ps, seen)
    ensures NoClash(InsertAll(db, p, ps).rows)
  {
    hide InsertAll;
    InsertAllRows(db, p, ps);
    var rows, n := InsertAll(db, p, ps).rows, |db.rows|;
    forall i, j | 0 <= i < j < |rows| ensures !Clash(rows[i], rows[j]) {
      if i < n {
        assert rows[..n][i] == db.rows[i];
      } else {
        assert rows[n + (i - n)] == NewRow(db.nextId + (i - n), p, ps[i-n].tx, 0.0);
      }
      if j < n {
        assert rows[..n][j] == db.rows[j];
      } else {
        assert rows[n + (j - n)] == NewRow(db.nextId + (j - n), p, ps[j-n].tx, 0.0);
      }
    }
  }

  lemma ImportNoClash(db: Db, cat: Catalog, free: bool, p: int, mode: Mode, rows: seq<CsvRow>)
    requires p in db.portfolios && NoClash(db.rows) && BulkCreate(db, cat, free, p, mode, rows).Ok?
    ensures NoClash(BulkCreate(db, cat, free, p, mode, rows).value.0.rows)
  {
    hide NoClash, ScanRows, FreshBatch, Resettle;
    var st0 := StartScan(db, p);
    NothingFresh(db, p);
    ScanKeepsFresh(db, cat, free, p, st0, rows, 0);
    var st := ScanRows(db, cat, free, p, st0, rows, 0);
    InsertedNoClash(db, p, ToInsert(st.prepared), st.seen);
    WrittenRows(db, p, ToInsert(st.prepared));
  }

  lemma NothingFresh(db: Db, p: int)
    ensures FreshBatch(db, p, ToInsert([]), {})
  {
  }

  // ---------------------------------------------------------------------------------------------
  // Every request
  // ---------------------------------------------------------------------------------------------

  lemma CreateNoClash(db: Db, cat: Catalog, free: bool, market: real, p: int, b: NewTx)
    requires p in db.portfolios && NoClash(db.rows) && CreateTransaction(db, cat, free, market, p, b).Ok?
    ensures NoClash(CreateTransaction(db, cat, free, market, p, b).value.rows)
  {
    hide NoClash, HashTaken, ResettledPortfolios;
    AppendedNoClash(db.rows, NewRow(0, p, b, market).(id := db.nextId));
  }

  lemma UpdateNoClash(db: Db, cat: Catalog, market: real, p: int, id: int, b: Patch)
    requires p in db.portfolios && NoClash(db.rows) && UpdateTransaction(db, cat, market, p, id, b).Ok?
    ensures NoClash(UpdateTransaction(db, cat, market, p, id, b).value.rows)
  {
    hide NoClash, ResettledPortfolios;
    var i := IndexOf(db.rows, id);
    ReplacedNoClash(db.rows, i, PatchedRow(db.rows[i], b, market));
  }

  lemma DeleteNoClash(db: Db, p: int, id: int)
    requires p in db.portfolios && NoClash(db.rows) && DeleteTransaction(db, p, id).Ok?
    ensures NoClash(DeleteTransaction(db, p, id).value.rows)
  {
    hide ResettledPortfolios, WithoutGroup;
    var i := IndexOf(db.rows, id);
    if db.rows[i].group.Some? {
      WithoutGroupNoClash(db.rows, db.rows[i].group.value);
    }
  }

  lemma MoveNoClash(db: Db, src: int, dst: int, s: string, amount: real, usd: real, ts: int, g: int)
    requires dst in db.portfolios && NoClash(db.rows)
    ensures NoClash(Moved(db, src, dst, s, amount, usd, ts, g).rows)
  {
    hide NoClash, ResettledPortfolios;
    var out := Leg(src, s, Sell, amount, usd, ts, g).(id := db.nextId);
    AppendedNoClash(db.rows, out);
    AppendedNoClash(db.rows + [out], Leg(dst, s, Buy, amount, usd, ts, g).(id := db.nextId + 1));
  }

  lemma ApplyNoClash(db: Db, cat: Catalog, t: Call)
    requires NoClash(db.rows)
    ensures NoClash(Apply(db, cat, t).rows)
  {
    hide NoClash, CreateTransaction, UpdateTransaction, DeleteTransaction, BulkCreate, CarriedUsd, Moved;
    if t.p in db.portfolios && Outcome(db, cat, t).Some? {
      match t.request
      case Create(b, free, market) => CreateNoClash(db, cat, free, market, t.p, b);
      case Update(id, patch, market) => UpdateNoClash(db, cat, market, t.p, id, patch);
      case Delete(id) => DeleteNoClash(db, t.p, id);
      case Import(mode, lines, free) => ImportNoClash(db, cat, free, t.p, mode, lines);
      case Move(dst, s, amount, ts, g) =>
        MoveNoClash(db, t.p, dst, s, amount, CarriedUsd(amount, db.portfolios[t.p].assets[s].p), ts, g);
      case _ =>
    }
  }

  /** Over every run. */
  lemma {:induction false} RunNoClash(db: Db, cat: Catalog, ts: seq<Call>)
    requires NoClash(db.rows)
    ensures NoClash(Run(db, cat, ts).rows)
    decreases ts
  {
    hide NoClash, Apply;
    if ts != [] {
      ApplyNoClash(db, cat, ts[0]);
      RunNoClash(Apply(db, cat, ts[0]), cat, ts[1..]);
    }
  }
}
