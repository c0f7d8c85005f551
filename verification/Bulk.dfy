/**
  CSV import of transactions (src/modules/transactions/transactions.bulk.ts): one forward pass that
  validates every row against a running balance, one batched write, one recalculation per token.
 */
module Bulk {
  import opened Options
  import opened Recalc
  import opened Ledger

  datatype TypeCell = TypeBlank | TypeOther | TypeBuy | TypeSell | TypeTransfer
  datatype NumCell = NumBlank | NumBad | Num(value: real)
  datatype DateCell = DateBlank | DateBad | Day(ts: int)

  /**
    A parsed line.  `symbol` is trimmed and upper-cased and `hash` trimmed, both "" when absent;
    `textOk` says that symbol, hash, notes, from and to keep the length limits of the single-create schema.
   */
  datatype CsvRow = CsvRow(
    kind: TypeCell, symbol: string, amount: NumCell, price: NumCell, date: DateCell, gasFee: NumCell,
    hash: string, textOk: bool)

  datatype Mode = AllOrNothing | SkipInvalid
  datatype RowError = RowError(row: nat, column: string)
  datatype Prepared = Prepared(row: nat, tx: NewTx, createAsset: bool, duplicate: bool)
  datatype Summary = Summary(imported: nat, skipped: nat, errors: seq<RowError>)
  datatype BulkError = NotManual | TooManyRows | ValidationFailed(errors: seq<RowError>)

  const BULK_ROW_CAP := 500
  const MAX_DECIMAL := 1000000000000.0

  predicate NumOk(c: NumCell, positive: bool) {
    c.Num? && 0.0 <= c.value < MAX_DECIMAL && (positive ==> c.value > 0.0)
  }

  predicate SymbolOk(cat: Catalog, s: string) { s != "" && s in cat }

  /** The columns of a row whose cells are rejected, in the order they are reported. */
  function CellErrors(cat: Catalog, r: CsvRow): seq<string> {
    (if !(r.kind.TypeBuy? || r.kind.TypeSell?) then ["type"] else [])
    + (if SymbolOk(cat, r.symbol) then [] else ["symbol"])
    + (if NumOk(r.amount, true) then [] else ["amount"])
    + (if NumOk(r.price, true) then [] else ["price"])
    + (if r.date.Day? then [] else ["date"])
    + (if r.gasFee.NumBlank? || NumOk(r.gasFee, false) then [] else ["gas_fee"])
  }

  predicate CellsOk(cat: Catalog, r: CsvRow) {
    && (r.kind.TypeBuy? || r.kind.TypeSell?) && SymbolOk(cat, r.symbol)
    && NumOk(r.amount, true) && NumOk(r.price, true) && r.date.Day?
    && (r.gasFee.NumBlank? || NumOk(r.gasFee, false))
  }

  lemma NoCellErrors(cat: Catalog, r: CsvRow)
    ensures CellErrors(cat, r) == [] <==> CellsOk(cat, r)
  {
  }

  /** A row that reaches the business rules. */
  predicate RowOk(cat: Catalog, r: CsvRow) { CellsOk(cat, r) && r.textOk }

  /** The single-create body a row stands for. */
  function RowTx(r: CsvRow): NewTx
    requires r.amount.Num? && r.date.Day?
  {
    NewTx(Native, r.symbol, if r.kind.TypeBuy? then Buy else if r.kind.TypeTransfer? then Transfer else Sell,
          r.amount.value, if r.price.Num? then Some(r.price.value) else None, r.date.ts,
          if r.hash == "" then None else Some(r.hash))
  }

  // ---------------------------------------------------------------------------------------------
  // The forward pass
  // ---------------------------------------------------------------------------------------------

  datatype Scan = Scan(
    running: map<string, real>, held: set<string>, seen: set<string>, errors: seq<RowError>, prepared: seq<Prepared>)

  function RowErrors(row: nat, columns: seq<string>): seq<RowError> {
    seq(|columns|, i requires 0 <= i < |columns| => RowError(row, columns[i]))
  }

  function Balance(st: Scan, s: string): real {
    if s in st.running then st.running[s] else 0.0
  }

  /** What was read before the pass: held assets with their balances. */
  function StartScan(db: Db, p: int): Scan
    requires p in db.portfolios
  {
    var assets := db.portfolios[p].assets;
    Scan(map s | s in assets :: assets[s].p.balance, assets.Keys, {}, [], [])
  }

  function Reject(st: Scan, row: nat, column: string): Scan {
    st.(errors := st.errors + [RowError(row, column)])
  }

  /** The business rules of one row, against the running balance. */
  function Judge(cat: Catalog, free: bool, st: Scan, row: nat, tx: NewTx): Scan
    requires tx.symbol in cat
  {
    var s, held, bal := tx.symbol, tx.symbol in st.held, Balance(st, tx.symbol);
    if tx.dir == Buy && !held && !RankAllowed(cat[s], free) then Reject(st, row, "symbol")
    else if tx.dir != Buy && !held then Reject(st, row, "symbol")
    else if tx.dir != Buy && tx.amount > bal then Reject(st, row, "amount")
    else
      var bal' := if tx.dir != Buy then bal - tx.amount else (if held then bal else 0.0) + tx.amount;
      st.(running := st.running[s := bal'], held := st.held + {s},
          prepared := st.prepared + [Prepared(row, tx, !held, false)])
  }

  function ScanRow(db: Db, cat: Catalog, free: bool, p: int, st: Scan, row: nat, r: CsvRow): Scan {
    if !CellsOk(cat, r) then st.(errors := st.errors + RowErrors(row, CellErrors(cat, r)))
    else if !r.textOk then Reject(st, row, "")
    else
      var tx := RowTx(r);
      if tx.hash.Some? && (HashTaken(db.rows, p, tx.hash) || r.hash in st.seen)
      then st.(prepared := st.prepared + [Prepared(row, tx, false, true)])
      else Judge(cat, free, if tx.hash.Some? then st.(seen := st.seen + {r.hash}) else st, row, tx)
  }

  function ScanRows(db: Db, cat: Catalog, free: bool, p: int, st: Scan, rows: seq<CsvRow>, i: nat): Scan
    requires i <= |rows|
    decreases |rows| - i
  {
    if i == |rows| then st
    else ScanRows(db, cat, free, p, ScanRow(db, cat, free, p, st, i + 1, rows[i]), rows, i + 1)
  }

  function ToInsert(ps: seq<Prepared>): seq<Prepared> {
    if ps == [] then []
    else (if ps[0].duplicate then [] else [ps[0]]) + ToInsert(ps[1..])
  }

  function ErrorRows(errors: seq<RowError>): set<nat> {
    set e | e in errors :: e.row
  }

  // ---------------------------------------------------------------------------------------------
  // The batched write
  // ---------------------------------------------------------------------------------------------

  function InsertRow(db: Db, p: int, q: Prepared): Db
    requires p in db.portfolios
  {
    Append(if q.createAsset then WithAsset(db, p, q.tx.symbol, EMPTY_ASSET) else db, NewRow(0, p, q.tx, 0.0))
  }

  function InsertAll(db: Db, p: int, ps: seq<Prepared>): (r: Db)
    requires p in db.portfolios
    ensures p in r.portfolios && r.portfolios.Keys == db.portfolios.Keys
    ensures r.portfolios[p].kind == db.portfolios[p].kind
    decreases ps
  {
    if ps == [] then db else InsertAll(InsertRow(db, p, ps[0]), p, ps[1..])
  }

  function Touched(p: int, ps: seq<Prepared>): set<(int, string)> {
    set q | q in ps :: (p, q.tx.symbol)
  }

  /** The tables after importing `ps`: nothing at all is written for an empty batch. */
  ghost function Written(db: Db, p: int, ps: seq<Prepared>): Db
    requires p in db.portfolios
  {
    if ps == [] then db else Resettle(InsertAll(db, p, ps), Touched(p, ps), {p})
  }

  ghost function BulkCreate(
    db: Db, cat: Catalog, free: bool, p: int, mode: Mode, rows: seq<CsvRow>): Result<(Db, Summary), BulkError>
    requires p in db.portfolios
  {
    if db.portfolios[p].kind != Manual then Err(NotManual)
    else if |rows| > BULK_ROW_CAP then Err(TooManyRows)
    else
      var st := ScanRows(db, cat, free, p, StartScan(db, p), rows, 0);
      if mode == AllOrNothing && st.errors != [] then Err(ValidationFailed(st.errors))
      else
        var ins := ToInsert(st.prepared);
        var skipped := |st.prepared| - |ins| + (if mode == SkipInvalid then |ErrorRows(st.errors)| else 0);
        ToInsertShorter(st.prepared);
        Ok((Written(db, p, ins), Summary(|ins|, skipped, st.errors)))
  }

  lemma {:induction false} ToInsertShorter(ps: seq<Prepared>)
    ensures |ToInsert(ps)| <= |ps|
  {
    if ps != [] {
      ToInsertShorter(ps[1..]);
    }
  }

  lemma {:induction false} ToInsertSnoc(ps: seq<Prepared>, q: Prepared)
    ensures ToInsert(ps + [q]) == ToInsert(ps) + (if q.duplicate then [] else [q])
  {
    if ps == [] {
      assert ps + [q] == [q];
    } else {
      assert (ps + [q])[1..] == ps[1..] + [q];
      ToInsertSnoc(ps[1..], q);
    }
  }

  lemma {:induction false} InsertAllSnoc(db: Db, p: int, ps: seq<Prepared>, q: Prepared)
    requires p in db.portfolios
    ensures InsertAll(db, p, ps + [q]) == InsertRow(InsertAll(db, p, ps), p, q)
    decreases ps
  {
    if ps == [] {
      assert ps + [q] == [q];
    } else {
      assert (ps + [q])[1..] == ps[1..] + [q];
      InsertAllSnoc(InsertRow(db, p, ps[0]), p, ps[1..], q);
    }
  }

  // ---------------------------------------------------------------------------------------------
  // Every row is either imported or skipped
  // ---------------------------------------------------------------------------------------------

  ghost predicate Partitioned(st: Scan, n: nat) {
    && |st.prepared| + |ErrorRows(st.errors)| == n
    && forall e :: e in st.errors ==> 1 <= e.row <= n
  }

  lemma ErrorRowsAdd(errors: seq<RowError>, row: nat, more: seq<RowError>)
    requires more != [] && forall e :: e in more ==> e.row == row
    requires forall e :: e in errors ==> e.row < row
    ensures |ErrorRows(errors + more)| == |ErrorRows(errors)| + 1
    ensures forall e :: e in errors + more ==> e.row <= row
  {
    assert more[0] in errors + more;
    assert ErrorRows(errors + more) == ErrorRows(errors) + {row};
    assert row !in ErrorRows(errors);
  }

  lemma ScanRowPartitions(db: Db, cat: Catalog, free: bool, p: int, st: Scan, row: nat, r: CsvRow)
    requires row > 0 && Partitioned(st, row - 1)
    ensures Partitioned(ScanRow(db, cat, free, p, st, row, r), row)
  {
    var st' := ScanRow(db, cat, free, p, st, row, r);
    NoCellErrors(cat, r);
    if !CellsOk(cat, r) {
      ErrorRowsAdd(st.errors, row, RowErrors(row, CellErrors(cat, r)));
    } else if st'.errors != st.errors {
      var e := st'.errors[|st.errors|];
      assert st'.errors == st.errors + [e];
      ErrorRowsAdd(st.errors, row, [e]);
    }
  }

  lemma {:induction false} ScanRowsPartition(
    db: Db, cat: Catalog, free: bool, p: int, st: Scan, rows: seq<CsvRow>, i: nat)
    requires i <= |rows| && Partitioned(st, i)
    ensures Partitioned(ScanRows(db, cat, free, p, st, rows, i), |rows|)
    decreases |rows| - i
  {
    if i < |rows| {
      ScanRowPartitions(db, cat, free, p, st, i + 1, rows[i]);
      ScanRowsPartition(db, cat, free, p, ScanRow(db, cat, free, p, st, i + 1, rows[i]), rows, i + 1);
    }
  }

  /** Whenever an import returns, imported plus skipped is the number of rows. */
  lemma RowsPartition(db: Db, cat: Catalog, free: bool, p: int, mode: Mode, rows: seq<CsvRow>)
    requires p in db.portfolios
    ensures var r := BulkCreate(db, cat, free, p, mode, rows);
            r.Ok? ==> r.value.1.imported + r.value.1.skipped == |rows|
  {
    ScanRowsPartition(db, cat, free, p, StartScan(db, p), rows, 0);
    var st := ScanRows(db, cat, free, p, StartScan(db, p), rows, 0);
    ToInsertShorter(st.prepared);
  }
}
