/**
  What an import leaves, in terms of the file's cells: one row per accepted line, in line order, and
  units and dollars of every token moved by the lines' amounts and prices.
 */
module Imports {
  import opened Options
  import opened Recalc
  import opened Ledger
  import opened LedgerRuns
  import opened Bulk
  import opened BulkRefines
  import opened Effects

  /** The stored row says what the line says. */
  predicate IsRowOf(x: TxRow, id: int, p: int, r: CsvRow) {
    && x.id == id && x.portfolio == p && x.kind == Native && x.symbol == r.symbol
    && ((r.kind.TypeBuy? && x.dir == Buy) || (r.kind.TypeSell? && x.dir == Sell))
    && r.amount == Num(x.amount) && r.price.Num? && x.price == Some(r.price.value) && x.usd == x.amount * r.price.value
    && r.date == Day(x.ts) && x.group.None? && x.hash == if r.hash == "" then None else Some(r.hash)
  }

  /** Prepared rows of a file's first n lines. */
  ghost predicate Lines(db: Db, cat: Catalog, p: int, rows: seq<CsvRow>, ps: seq<Prepared>, n: nat)
    requires p in db.portfolios && n <= |rows|
  {
    && (forall k :: 0 <= k < |ps| ==> 1 <= ps[k].row <= n && LineOf(db, cat, p, ps[k], rows[ps[k].row-1]))
    && forall i, j :: 0 <= i < j < |ps| ==> ps[i].row < ps[j].row
  }

  predicate LineOf(db: Db, cat: Catalog, p: int, q: Prepared, r: CsvRow)
    requires p in db.portfolios
  {
    CellsOk(cat, r) && q.tx == RowTx(r) && (q.createAsset ==> r.symbol !in db.portfolios[p].assets)
  }

  ghost predicate Passing(db: Db, cat: Catalog, p: int, rows: seq<CsvRow>, st: Scan, n: nat)
    requires p in db.portfolios && n <= |rows|
  {
    db.portfolios[p].assets.Keys <= st.held && Lines(db, cat, p, rows, ToInsert(st.prepared), n)
  }

  lemma ScanRowAdds(db: Db, cat: Catalog, free: bool, p: int, st: Scan, row: nat, r: CsvRow)
    requires p in db.portfolios && db.portfolios[p].assets.Keys <= st.held
    ensures var st' := ScanRow(db, cat, free, p, st, row, r);
            && st.held <= st'.held
            && (st'.prepared == st.prepared
                || (|st'.prepared| == |st.prepared| + 1 && st'.prepared[..|st.prepared|] == st.prepared
                    && var q := st'.prepared[|st.prepared|]; q.row == row && LineOf(db, cat, p, q, r)))
  {
  }

  lemma RowPasses(db: Db, cat: Catalog, free: bool, p: int, st: Scan, rows: seq<CsvRow>, i: nat)
    requires p in db.portfolios && i < |rows| && Passing(db, cat, p, rows, st, i)
    ensures Passing(db, cat, p, rows, ScanRow(db, cat, free, p, st, i + 1, rows[i]), i + 1)
  {
    hide ScanRow, LineOf, ToInsert;
    var st' := ScanRow(db, cat, free, p, st, i + 1, rows[i]);
    ScanRowAdds(db, cat, free, p, st, i + 1, rows[i]);
    if st'.prepared != st.prepared {
      var q := st'.prepared[|st.prepared|];
      ToInsertSnoc(st.prepared, q);
      assert st'.prepared == st.prepared + [q];
    }
  }

  lemma {:induction false} ScanPasses(db: Db, cat: Catalog, free: bool, p: int, st: Scan, rows: seq<CsvRow>, i: nat)
    requires p in db.portfolios && i <= |rows| && Passing(db, cat, p, rows, st, i)
    ensures Passing(db, cat, p, rows, ScanRows(db, cat, free, p, st, rows, i), |rows|)
    decreases |rows| - i
  {
    hide ScanRow, Passing;
    if i < |rows| {
      RowPasses(db, cat, free, p, st, rows, i);
      ScanPasses(db, cat, free, p, ScanRow(db, cat, free, p, st, i + 1, rows[i]), rows, i + 1);
    }
  }

  lemma {:induction false} InsertAllRows(db: Db, p: int, ps: seq<Prepared>)
    requires p in db.portfolios
    ensures var raw := InsertAll(db, p, ps);
            && |raw.rows| == |db.rows| + |ps| && raw.rows[..|db.rows|] == db.rows
            && forall k :: 0 <= k < |ps| ==> raw.rows[|db.rows| + k] == NewRow(db.nextId + k, p, ps[k].tx, 0.0)
    decreases ps
  {
    if ps != [] {
      var db1 := InsertRow(db, p, ps[0]);
      InsertAllRows(db1, p, ps[1..]);
      var raw := InsertAll(db, p, ps);
      assert raw.rows[..|db.rows|] == raw.rows[..|db1.rows|][..|db.rows|];
      assert raw.rows[|db.rows|] == raw.rows[..|db1.rows|][|db.rows|];
      forall k | 0 < k < |ps| ensures raw.rows[|db.rows| + k] == NewRow(db.nextId + k, p, ps[k].tx, 0.0) {
        assert raw.rows[|db1.rows| + (k - 1)] == NewRow(db1.nextId + (k - 1), p, ps[1..][k-1].tx, 0.0);
      }
    }
  }

  /** The batch an import inserts, seen line by line. */
  lemma Batch(db: Db, cat: Catalog, free: bool, p: int, mode: Mode, rows: seq<CsvRow>) returns (ps: seq<Prepared>)
    requires p in db.portfolios && BulkCreate(db, cat, free, p, mode, rows).Ok?
    ensures var (db', sum) := BulkCreate(db, cat, free, p, mode, rows).value;
            && db.portfolios[p].kind == Manual && sum.imported == |ps|
            && db' == Written(db, p, ps) && Accepted(db, cat, free, p, rows) == RowNumbers(ps)
            && Lines(db, cat, p, rows, ps, |rows|)
  {
    hide ScanRows, Written, Lines, RowNumbers;
    var st0 := StartScan(db, p);
    StartPasses(db, cat, p, rows);
    ScanPasses(db, cat, free, p, st0, rows, 0);
    ps := ToInsert(ScanRows(db, cat, free, p, st0, rows, 0).prepared);
  }

  lemma StartPasses(db: Db, cat: Catalog, p: int, rows: seq<CsvRow>)
    requires p in db.portfolios
    ensures Passing(db, cat, p, rows, StartScan(db, p), 0)
  {
  }

  lemma WrittenRows(db: Db, p: int, ps: seq<Prepared>)
    requires p in db.portfolios
    ensures Written(db, p, ps).rows == InsertAll(db, p, ps).rows
  {
  }

  /** Rows of the table from `base` on are these lines of the file. */
  ghost predicate AreLines(rows: seq<TxRow>, base: nat, id: int, p: int, file: seq<CsvRow>, ns: seq<nat>) {
    && |rows| == base + |ns| && InFile(file, ns)
    && forall k :: 0 <= k < |ns| ==> IsRowOf(rows[base + k], id + k, p, file[ns[k]-1])
  }

  lemma LineIsRow(db: Db, cat: Catalog, p: int, id: int, q: Prepared, r: CsvRow)
    requires p in db.portfolios && LineOf(db, cat, p, q, r)
    ensures IsRowOf(NewRow(id, p, q.tx, 0.0), id, p, r)
  {
  }

  lemma InsertedAreLines(db: Db, cat: Catalog, p: int, rows: seq<CsvRow>, ps: seq<Prepared>)
    requires p in db.portfolios && Lines(db, cat, p, rows, ps, |rows|)
    ensures AreLines(InsertAll(db, p, ps).rows, |db.rows|, db.nextId, p, rows, RowNumbers(ps))
  {
    hide LineOf, IsRowOf, InsertAll, NewRow;
    InsertAllRows(db, p, ps);
    var raw, ns := InsertAll(db, p, ps).rows, RowNumbers(ps);
    forall k | 0 <= k < |ns| ensures IsRowOf(raw[|db.rows| + k], db.nextId + k, p, rows[ns[k]-1]) {
      LineIsRow(db, cat, p, db.nextId + k, ps[k], rows[ps[k].row-1]);
    }
  }

  /**
    Whenever an import returns, its new rows are, in line order, one per accepted line: the line's token,
    direction, amount, price, day and hash, and its amount at its price in dollars.
   */
  lemma ImportedRows(db: Db, cat: Catalog, free: bool, p: int, mode: Mode, rows: seq<CsvRow>)
    requires p in db.portfolios && BulkCreate(db, cat, free, p, mode, rows).Ok?
    ensures var (db', sum) := BulkCreate(db, cat, free, p, mode, rows).value;
            var ns := Accepted(db, cat, free, p, rows);
            && sum.imported == |ns| && db.rows <= db'.rows
            && AreLines(db'.rows, |db.rows|, db.nextId, p, rows, ns)
            && forall i, j :: 0 <= i < j < |ns| ==> ns[i] < ns[j]
  {
    hide BulkCreate, Accepted, Written, LineOf, IsRowOf, InsertAll;
    var ps := Batch(db, cat, free, p, mode, rows);
    InsertAllRows(db, p, ps);
    WrittenRows(db, p, ps);
    InsertedAreLines(db, cat, p, rows, ps);
  }

  // ---------------------------------------------------------------------------------------------
  // Units and dollars
  // ---------------------------------------------------------------------------------------------

  function Value(c: NumCell): real { if c.Num? then c.value else 0.0 }

  predicate InFile(rows: seq<CsvRow>, ns: seq<nat>) { forall k :: 0 <= k < |ns| ==> 1 <= ns[k] <= |rows| }

  /** What one line adds to a token. */
  function Part(r: CsvRow, s: string, dollars: bool): real {
    var x := if dollars then Value(r.amount) * Value(r.price) else Value(r.amount);
    if r.symbol != s then 0.0 else if r.kind.TypeBuy? then x else -x
  }

  lemma RowIsPart(x: TxRow, id: int, p: int, r: CsvRow, s: string)
    requires IsRowOf(x, id, p, r)
    ensures NetQty(EventsOf([x], p, s)) == Part(r, s, false) && NetUsd(EventsOf([x], p, s)) == Part(r, s, true)
  {
    OneRow(x, p, s);
  }

  /** Purchases minus sales of a token on these lines, in units or in dollars. */
  function LineSum(rows: seq<CsvRow>, ns: seq<nat>, s: string, dollars: bool): real
    requires InFile(rows, ns)
  {
    if ns == [] then 0.0
    else LineSum(rows, ns[..|ns|-1], s, dollars) + Part(rows[ns[|ns|-1]-1], s, dollars)
  }

  lemma {:induction false} RowsSum(
    rows: seq<TxRow>, base: nat, id: int, p: int, file: seq<CsvRow>, ns: seq<nat>, s: string)
    requires AreLines(rows, base, id, p, file, ns)
    ensures NetQty(EventsOf(rows, p, s)) == NetQty(EventsOf(rows[..base], p, s)) + LineSum(file, ns, s, false)
    ensures NetUsd(EventsOf(rows, p, s)) == NetUsd(EventsOf(rows[..base], p, s)) + LineSum(file, ns, s, true)
    decreases |ns|
  {
    hide EventsOf, NetQty, NetUsd, Part, IsRowOf;
    if ns == [] {
      assert rows[..base] == rows;
    } else {
      var n := |rows| - 1;
      var init, x := rows[..n], rows[n];
      RowsSum(init, base, id, p, file, ns[..|ns|-1], s);
      assert init[..base] == rows[..base] && rows == init + [x];
      assert IsRowOf(rows[base + (|ns| - 1)], id + (|ns| - 1), p, file[ns[|ns|-1]-1]);
      EventsConcat(init, [x], p, s);
      NetAppend(EventsOf(init, p, s), EventsOf([x], p, s));
      RowIsPart(x, id + (|ns| - 1), p, file[ns[|ns|-1]-1], s);
    }
  }

  lemma {:induction false} InsertAllLot(db: Db, p: int, ps: seq<Prepared>, s: string)
    requires p in db.portfolios && db.portfolios[p].kind == Manual
    requires forall q :: q in ps && q.createAsset && q.tx.symbol == s ==> LotAt(db, p, s) == Lot(0.0, None)
    ensures LotAt(InsertAll(db, p, ps), p, s) == LotAt(db, p, s)
    decreases ps
  {
    if ps != [] {
      var db1 := InsertRow(db, p, ps[0]);
      assert ps[0] in ps && forall q :: q in ps[1..] ==> q in ps;
      assert LotAt(db1, p, s) == LotAt(db, p, s);
      InsertAllLot(db1, p, ps[1..], s);
    }
  }

  lemma ResettleKeepsLot(db: Db, targets: set<(int, string)>, totals: set<int>, p: int, s: string)
    ensures LotAt(Resettle(db, targets, totals), p, s) == LotAt(db, p, s)
  {
  }

  /** Every token, held before or not, gains the units and dollars of its accepted lines. */
  lemma ImportMoves(db: Db, cat: Catalog, free: bool, p: int, mode: Mode, rows: seq<CsvRow>, s: string)
    requires p in db.portfolios && BulkCreate(db, cat, free, p, mode, rows).Ok? && Balanced(db, p, s)
    ensures var db', ns := BulkCreate(db, cat, free, p, mode, rows).value.0, Accepted(db, cat, free, p, rows);
            && InFile(rows, ns)
            && Units(db', p, s) == Units(db, p, s) + LineSum(rows, ns, s, false)
            && Dollars(db', p, s) == Dollars(db, p, s) + LineSum(rows, ns, s, true)
  {
    hide BulkCreate, Accepted, Written, EventsOf, NetQty, NetUsd, Balanced, AreLines, LineOf;
    var db', ns := BulkCreate(db, cat, free, p, mode, rows).value.0, Accepted(db, cat, free, p, rows);
    var ps := Batch(db, cat, free, p, mode, rows);
    ImportedRows(db, cat, free, p, mode, rows);
    LinesInFile(db'.rows, |db.rows|, db.nextId, p, rows, ns);
    RowsSum(db'.rows, |db.rows|, db.nextId, p, rows, ns, s);
    WrittenLot(db, cat, p, rows, ps, s);
    WrittenKeeps(db, p, ps);
    assert db'.rows[..|db.rows|] == db.rows;
    UnitsAreRows(db, p, s);
    UnitsAreRows(db', p, s);
  }

  lemma LinesInFile(rows: seq<TxRow>, base: nat, id: int, p: int, file: seq<CsvRow>, ns: seq<nat>)
    requires AreLines(rows, base, id, p, file, ns)
    ensures InFile(file, ns)
  {
  }

  lemma WrittenLot(db: Db, cat: Catalog, p: int, rows: seq<CsvRow>, ps: seq<Prepared>, s: string)
    requires p in db.portfolios && db.portfolios[p].kind == Manual && Lines(db, cat, p, rows, ps, |rows|)
    ensures LotAt(Written(db, p, ps), p, s) == LotAt(db, p, s)
  {
    hide Resettle, CellsOk;
    forall q | q in ps && q.createAsset && q.tx.symbol == s ensures LotAt(db, p, s) == Lot(0.0, None) {
      var k :| 0 <= k < |ps| && ps[k] == q;
    }
    InsertAllLot(db, p, ps, s);
    ResettleKeepsLot(InsertAll(db, p, ps), Touched(p, ps), {p}, p, s);
  }
}
