/**
  The import against its reference: creating the accepted rows one by one.  They agree on every file
  exactly when no token the file could buy has leftover rows from a removed asset.
 */
module BulkRefines {
  import opened Options
  import opened Recalc
  import opened Ledger
  import opened LedgerRuns
  import opened Bulk

  /** The single-create schema: a transfer is allowed, and the price may be absent or zero. */
  predicate BodyOk(r: CsvRow) {
    && (r.kind.TypeBuy? || r.kind.TypeSell? || r.kind.TypeTransfer?) && r.symbol != ""
    && NumOk(r.amount, true) && (r.price.NumBlank? || NumOk(r.price, false)) && r.date.Day?
    && (r.gasFee.NumBlank? || NumOk(r.gasFee, false)) && r.textOk
  }

  /** Whether the single-create endpoint takes a row: its cells make a body that is not refused. */
  ghost predicate Accepts(db: Db, cat: Catalog, free: bool, p: int, r: CsvRow)
    requires p in db.portfolios
  {
    BodyOk(r) && Refusal(db, cat, free, p, RowTx(r)).None?
  }

  /** A body for the single-create endpoint that the import's cell checks reject. */
  predicate SingleOnly(cat: Catalog, r: CsvRow) {
    BodyOk(r) && SymbolOk(cat, r.symbol) && (r.kind.TypeTransfer? || r.price.NumBlank? || r.price == Num(0.0))
  }

  /** Cell checks and schema part on these lines alone. */
  lemma SingleOnlyIsTheRest(db: Db, cat: Catalog, free: bool, p: int, r: CsvRow)
    requires p in db.portfolios
    ensures RowOk(cat, r) ==> BodyOk(r) && SymbolOk(cat, r.symbol) && RowTx(r).price.Some? && RowTx(r).dir != Transfer
    ensures SingleOnly(cat, r) <==> BodyOk(r) && SymbolOk(cat, r.symbol) && !RowOk(cat, r)
    ensures Accepts(db, cat, free, p, r) ==> RowOk(cat, r) || SingleOnly(cat, r)
  {
  }

  /** The current prices, by symbol. */
  type Market = string -> real

  /** What the single-create endpoint leaves when it takes a row. */
  ghost function CreateOne(db: Db, cat: Catalog, free: bool, p: int, market: Market, r: CsvRow): (db': Db)
    requires p in db.portfolios && Accepts(db, cat, free, p, r)
    ensures CreateTransaction(db, cat, free, market(r.symbol), p, RowTx(r)) == Ok(db') && p in db'.portfolios
  {
    Created(db, market(r.symbol), p, RowTx(r))
  }

  /** Submits rows i.. one by one: the tables they leave, and `accepted` with the accepted rows added. */
  ghost function CreateEach(
    db: Db, cat: Catalog, free: bool, p: int, market: Market, rows: seq<CsvRow>, i: nat, accepted: seq<nat>): (Db, seq<nat>)
    requires p in db.portfolios && i <= |rows|
    decreases |rows| - i
  {
    if i == |rows| then (db, accepted)
    else if Accepts(db, cat, free, p, rows[i])
    then CreateEach(CreateOne(db, cat, free, p, market, rows[i]), cat, free, p, market, rows, i + 1, accepted + [i + 1])
    else CreateEach(db, cat, free, p, market, rows, i + 1, accepted)
  }

  function RowNumbers(ps: seq<Prepared>): seq<nat> {
    seq(|ps|, i requires 0 <= i < |ps| => ps[i].row)
  }

  /** The numbers of the rows an import inserts. */
  function Accepted(db: Db, cat: Catalog, free: bool, p: int, rows: seq<CsvRow>): seq<nat>
    requires p in db.portfolios
  {
    RowNumbers(ToInsert(ScanRows(db, cat, free, p, StartScan(db, p), rows, 0).prepared))
  }

  /** The valid rows repeat no hash that is new to the portfolio. */
  ghost predicate DistinctHashes(db: Db, cat: Catalog, p: int, rows: seq<CsvRow>) {
    forall i, j :: 0 <= i < j < |rows| && RowOk(cat, rows[i]) && RowOk(cat, rows[j]) && NewHash(db, p, rows[i].hash) ==>
      rows[i].hash != rows[j].hash
  }

  predicate NewHash(db: Db, p: int, hash: string) { hash != "" && !HashTaken(db.rows, p, Some(hash)) }

  function Symbols(rows: seq<CsvRow>): set<string> { set r | r in rows :: r.symbol }

  /** Of these tokens the user can buy none that has leftover rows which do not net to zero. */
  ghost predicate NoLeftovers(db: Db, cat: Catalog, free: bool, p: int, tokens: set<string>)
    requires p in db.portfolios
  {
    forall s :: s in tokens && Buyable(db, cat, free, p, s) ==> NetQty(EventsOf(db.rows, p, s)) == 0.0
  }

  /** A catalog token that is not held and that the plan allows. */
  predicate Buyable(db: Db, cat: Catalog, free: bool, p: int, s: string)
    requires p in db.portfolios
  {
    SymbolOk(cat, s) && RankAllowed(cat[s], free) && s !in db.portfolios[p].assets
  }

  ghost predicate HoldingsBalanced(db: Db, p: int) { forall s :: Balanced(db, p, s) }

  // ---------------------------------------------------------------------------------------------
  // One more row
  // ---------------------------------------------------------------------------------------------

  lemma InsertEvents(db: Db, p: int, q: Prepared, s: string)
    requires p in db.portfolios && s != q.tx.symbol
    ensures EventsOf(InsertRow(db, p, q).rows, p, s) == EventsOf(db.rows, p, s)
  {
    AppendEvents(db, NewRow(0, p, q.tx, 0.0), p, s);
  }

  lemma InsertAfterAssets(db: Db, p: int, t: set<(int, string)>, q: Prepared)
    requires p in db.portfolios && forall x :: x in t ==> x.0 == p
    ensures ResettledAssets(InsertRow(Resettle(db, t, {p}), p, q), p, {(p, q.tx.symbol)})
         == ResettledAssets(InsertRow(db, p, q), p, t + {(p, q.tx.symbol)})
  {
    var s, first := q.tx.symbol, ResettledAssets(db, p, t);
    var a, b := InsertRow(Resettle(db, t, {p}), p, q), InsertRow(db, p, q);
    assert a.rows == b.rows;
    assert a.portfolios[p].assets == if q.createAsset then first[s := EMPTY_ASSET] else first;
    var x, y := ResettledAssets(a, p, {(p, s)}), ResettledAssets(b, p, t + {(p, s)});
    forall s' | s' in x ensures s' in y && x[s'] == y[s'] {
      if s' != s {
        InsertEvents(db, p, q, s');
      }
    }
  }

  lemma OtherPortfolio(db: Db, p': int, t: set<(int, string)>, totals: set<int>)
    requires p' in db.portfolios && p' !in totals && forall x :: x in t ==> x.0 != p'
    ensures Resettle(db, t, totals).portfolios[p'] == db.portfolios[p']
  {
    assert ResettledAssets(db, p', t) == db.portfolios[p'].assets;
  }

  /** A recalculation before an insert is absorbed by the one after it. */
  lemma ResettleThenInsert(db: Db, p: int, t: set<(int, string)>, q: Prepared)
    requires p in db.portfolios && forall x :: x in t ==> x.0 == p
    ensures Resettle(InsertRow(Resettle(db, t, {p}), p, q), {(p, q.tx.symbol)}, {p})
         == Resettle(InsertRow(db, p, q), t + {(p, q.tx.symbol)}, {p})
  {
    hide ResettledAssets, EventsOf, Project, History, NewRow;
    var s := q.tx.symbol;
    var a, b := InsertRow(Resettle(db, t, {p}), p, q), InsertRow(db, p, q);
    var x, y := Resettle(a, {(p, s)}, {p}), Resettle(b, t + {(p, s)}, {p});
    InsertAfterAssets(db, p, t, q);
    forall p' | p' in db.portfolios ensures x.portfolios[p'] == y.portfolios[p'] {
      if p' != p {
        OtherPortfolio(db, p', t, {p});
        OtherPortfolio(a, p', {(p, s)}, {p});
        OtherPortfolio(b, p', t + {(p, s)}, {p});
      }
    }
    assert x.portfolios == y.portfolios;
  }

  /** Importing one more row is creating it on its own afterwards. */
  lemma WrittenSnoc(db: Db, p: int, ps: seq<Prepared>, q: Prepared)
    requires p in db.portfolios
    ensures Written(db, p, ps + [q]) == Resettle(InsertRow(Written(db, p, ps), p, q), {(p, q.tx.symbol)}, {p})
  {
    InsertAllSnoc(db, p, ps, q);
    assert ps + [q] != [];
    assert Touched(p, ps + [q]) == Touched(p, ps) + {(p, q.tx.symbol)} by {
      assert forall x :: x in ps + [q] <==> x in ps || x == q;
    }
    if ps == [] {
      assert Touched(p, ps + [q]) == {(p, q.tx.symbol)};
      assert InsertAll(db, p, ps + [q]) == InsertRow(db, p, q);
    } else {
      ResettleThenInsert(InsertAll(db, p, ps), p, Touched(p, ps), q);
    }
  }

  // ---------------------------------------------------------------------------------------------
  // The simulation
  // ---------------------------------------------------------------------------------------------

  /** Creating `q` at `was` yields `cur`; it is flagged when its asset row is missing. */
  ghost predicate CreatesNext(was: Db, p: int, q: Prepared, cur: Db) {
    && p in was.portfolios && q.tx.kind == Native && q.tx.price.Some?
    && (q.createAsset <==> q.tx.symbol !in was.portfolios[p].assets)
    && cur == Created(was, 0.0, p, q.tx)
  }

  /** `cur` is reached by creating `ps` one by one. */
  ghost predicate CreatedFrom(db: Db, p: int, ps: seq<Prepared>, cur: Db)
    decreases ps
  {
    if ps == [] then cur == db
    else
      var init, q := ps[..|ps|-1], ps[|ps|-1];
      exists was: Db :: CreatedFrom(db, p, init, was) && CreatesNext(was, p, q, cur)
  }

  lemma CreatedFromSnoc(db: Db, p: int, ps: seq<Prepared>, was: Db, q: Prepared, cur: Db)
    requires CreatedFrom(db, p, ps, was) && CreatesNext(was, p, q, cur)
    ensures CreatedFrom(db, p, ps + [q], cur)
  {
    assert (ps + [q])[..|ps|] == ps;
  }

  lemma WrittenNone(db: Db, p: int)
    requires p in db.portfolios
    ensures Written(db, p, []) == db
  {
  }

  lemma NextIsWritten(db: Db, p: int, ps: seq<Prepared>, was: Db, q: Prepared, cur: Db)
    requires p in db.portfolios && was == Written(db, p, ps) && CreatesNext(was, p, q, cur)
    ensures cur == Written(db, p, ps + [q])
  {
    WrittenSnoc(db, p, ps, q);
  }

  /** The batched write is the sequence of single creates. */
  lemma {:induction false} CreatedFromIsWritten(db: Db, p: int, ps: seq<Prepared>, cur: Db)
    requires p in db.portfolios && CreatedFrom(db, p, ps, cur)
    ensures cur == Written(db, p, ps)
    decreases ps
  {
    hide Written, Created;
    WrittenNone(db, p);
    if ps != [] {
      var init, q := ps[..|ps|-1], ps[|ps|-1];
      var was: Db :| CreatedFrom(db, p, init, was) && CreatesNext(was, p, q, cur);
      CreatedFromIsWritten(db, p, init, was);
      NextIsWritten(db, p, init, was, q, cur);
      assert init + [q] == ps;
    }
  }

  ghost predicate LedgerOk(db: Db, cat: Catalog, free: bool, p: int, tokens: set<string>) {
    && p in db.portfolios && db.portfolios[p].kind == Manual
    && HoldingsBalanced(db, p) && NoLeftovers(db, cat, free, p, tokens)
  }

  ghost predicate RunningOk(st: Scan, cur: Db, p: int)
    requires p in cur.portfolios
  {
    && st.held == cur.portfolios[p].assets.Keys && st.running.Keys == st.held
    && forall s :: s in st.held ==> st.running[s] == cur.portfolios[p].assets[s].p.balance
  }

  /** The hashes in use are those of the tables before the import and some that the pass has seen. */
  ghost predicate HashesOk(db: Db, p: int, seen: set<string>, cur: Db) {
    && (forall hash :: HashTaken(db.rows, p, hash) ==> HashTaken(cur.rows, p, hash))
    && (forall r :: r in cur.rows && r.portfolio == p && r.hash.Some? ==>
          HashTaken(db.rows, p, r.hash) || r.hash.value in seen)
  }

  /** The running pass `st` stands for the tables `cur` that the single creates have reached. */
  ghost predicate Simulates(db: Db, cat: Catalog, free: bool, p: int, tokens: set<string>, st: Scan, cur: Db) {
    && p in db.portfolios && LedgerOk(cur, cat, free, p, tokens)
    && CreatedFrom(db, p, ToInsert(st.prepared), cur)
    && RunningOk(st, cur, p) && HashesOk(db, p, st.seen, cur)
  }

  function Held(assets: map<string, Asset>, s: string): real {
    if s in assets then assets[s].p.balance else 0.0
  }

  /** What a create does to balances and leftovers. */
  lemma CreateBalances(cur: Db, cat: Catalog, free: bool, p: int, tokens: set<string>, tx: NewTx)
    requires LedgerOk(cur, cat, free, p, tokens) && tx.kind == Native && tx.dir != Transfer
    ensures var nxt := Created(cur, 0.0, p, tx);
            && LedgerOk(nxt, cat, free, p, tokens)
            && var was, now := cur.portfolios[p].assets, nxt.portfolios[p].assets;
            && now.Keys == was.Keys + {tx.symbol}
            && (forall s :: s in was && s != tx.symbol ==> now[s] == was[s])
            && (tx.symbol in was || NetQty(EventsOf(cur.rows, p, tx.symbol)) == 0.0 ==>
                  now[tx.symbol].p.balance == Held(was, tx.symbol) + Signed(tx.dir, tx.amount))
  {
    var s := tx.symbol;
    var nxt := Created(cur, 0.0, p, tx);
    CreatedKeeps(cur, 0.0, p, tx);
    var r := NewRow(0, p, tx, 0.0);
    var e := ToEvent(r.(id := cur.nextId));
    forall s' ensures EventsOf(nxt.rows, p, s') == EventsOf(cur.rows, p, s') + (if s' == s then [e] else []) {
      AppendEvents(cur, r, p, s');
    }
    NetAppend(EventsOf(cur.rows, p, s), [e]);
    assert NetQty([e]) == Signed(tx.dir, tx.amount);
    assert Balanced(nxt, p, s) && HasAsset(nxt, p, s);
    assert s in cur.portfolios[p].assets ==> Balanced(cur, p, s) && HasAsset(cur, p, s);
    forall s' | s' in tokens && Buyable(nxt, cat, free, p, s')
      ensures NetQty(EventsOf(nxt.rows, p, s')) == 0.0
    {
      assert s' != s && s' !in cur.portfolios[p].assets;
      assert EventsOf(nxt.rows, p, s') == EventsOf(cur.rows, p, s');
    }
  }

  /** The part of the simulation that the next row must respect. */
  ghost predicate RowFresh(db: Db, cat: Catalog, p: int, seen: set<string>, r: CsvRow) {
    RowOk(cat, r) && NewHash(db, p, r.hash) ==> r.hash !in seen
  }

  ghost predicate Extends(st: Scan, st': Scan, q: Prepared, hash: string) {
    && st'.prepared == st.prepared + [q]
    && st'.held == st.held + {q.tx.symbol}
    && st'.running == st.running[q.tx.symbol := Balance(st, q.tx.symbol) + Signed(q.tx.dir, q.tx.amount)]
    && st'.seen == st.seen + if hash == "" then {} else {hash}
  }

  /** The pass and the single create judge a row alike. */
  lemma JudgedAlike(db: Db, cat: Catalog, free: bool, p: int, st: Scan, cur: Db, row: nat, r: CsvRow)
    requires p in cur.portfolios && cur.portfolios[p].kind == Manual
    requires RunningOk(st, cur, p) && HashesOk(db, p, st.seen, cur) && RowFresh(db, cat, p, st.seen, r)
    requires SingleOnly(cat, r) ==> !Accepts(cur, cat, free, p, r)
    ensures var st' := ScanRow(db, cat, free, p, st, row, r);
            if Accepts(cur, cat, free, p, r)
            then RowOk(cat, r) && Extends(st, st', Prepared(row, RowTx(r), r.symbol !in st.held, false), r.hash)
            else ToInsert(st'.prepared) == ToInsert(st.prepared) && st'.running == st.running && st'.held == st.held
                 && st.seen <= st'.seen
  {
    SingleOnlyIsTheRest(cur, cat, free, p, r);
    if RowOk(cat, r) && (r.hash == "" || NewHash(db, p, r.hash)) {
      assert !HashTaken(cur.rows, p, RowTx(r).hash) by {
        assert forall i :: 0 <= i < |cur.rows| ==> cur.rows[i] in cur.rows;
      }
    } else if RowOk(cat, r) {
      ToInsertSnoc(st.prepared, Prepared(row, RowTx(r), false, true));
    }
  }

  lemma AcceptedRunning(st: Scan, st': Scan, cur: Db, nxt: Db, p: int, q: Prepared, hash: string)
    requires p in cur.portfolios && p in nxt.portfolios && RunningOk(st, cur, p) && Extends(st, st', q, hash)
    requires nxt.portfolios[p].assets.Keys == cur.portfolios[p].assets.Keys + {q.tx.symbol}
    requires forall s :: s in cur.portfolios[p].assets && s != q.tx.symbol ==>
      nxt.portfolios[p].assets[s] == cur.portfolios[p].assets[s]
    requires nxt.portfolios[p].assets[q.tx.symbol].p.balance
      == Held(cur.portfolios[p].assets, q.tx.symbol) + Signed(q.tx.dir, q.tx.amount)
    ensures RunningOk(st', nxt, p)
  {
  }

  lemma AcceptedHashes(db: Db, p: int, seen: set<string>, seen': set<string>, cur: Db, tx: NewTx)
    requires p in cur.portfolios && HashesOk(db, p, seen, cur) && seen <= seen' && (tx.hash.Some? ==> tx.hash.value in seen')
    ensures HashesOk(db, p, seen', Created(cur, 0.0, p, tx))
  {
    var nxt := Created(cur, 0.0, p, tx);
    assert nxt.rows == cur.rows + [NewRow(cur.nextId, p, tx, 0.0)];
    forall hash | HashTaken(cur.rows, p, hash) ensures HashTaken(nxt.rows, p, hash) {
      var i :| 0 <= i < |cur.rows| && cur.rows[i].portfolio == p && cur.rows[i].hash == hash;
      assert nxt.rows[i] == cur.rows[i];
    }
  }

  lemma AcceptedSimulates(
    db: Db, cat: Catalog, free: bool, p: int, tokens: set<string>, st: Scan, cur: Db, st': Scan, q: Prepared, hash: string)
    requires Simulates(db, cat, free, p, tokens, st, cur) && Extends(st, st', q, hash)
    requires q.tx.kind == Native && q.tx.price.Some? && q.tx.dir != Transfer && !q.duplicate
    requires q.createAsset <==> q.tx.symbol !in st.held
    requires q.tx.hash == if hash == "" then None else Some(hash)
    requires q.tx.symbol in cur.portfolios[p].assets || NetQty(EventsOf(cur.rows, p, q.tx.symbol)) == 0.0
    ensures ToInsert(st'.prepared) == ToInsert(st.prepared) + [q]
    ensures Simulates(db, cat, free, p, tokens, st', Created(cur, 0.0, p, q.tx))
  {
    ToInsertSnoc(st.prepared, q);
    CreateBalances(cur, cat, free, p, tokens, q.tx);
    AcceptedRunning(st, st', cur, Created(cur, 0.0, p, q.tx), p, q, hash);
    AcceptedHashes(db, p, st.seen, st'.seen, cur, q.tx);
    CreatedFromSnoc(db, p, ToInsert(st.prepared), cur, q, Created(cur, 0.0, p, q.tx));
  }

  lemma PricedIgnoresMarket(db: Db, market: real, p: int, tx: NewTx)
    requires p in db.portfolios && tx.price.Some?
    ensures Created(db, market, p, tx) == Created(db, 0.0, p, tx)
  {
    assert NewRow(0, p, tx, market) == NewRow(0, p, tx, 0.0);
  }

  lemma RowSimulates(
    db: Db, cat: Catalog, free: bool, p: int, market: Market, tokens: set<string>, st: Scan, cur: Db, row: nat, r: CsvRow)
    requires r.symbol in tokens
    requires Simulates(db, cat, free, p, tokens, st, cur) && RowFresh(db, cat, p, st.seen, r)
    requires SingleOnly(cat, r) ==> !Accepts(cur, cat, free, p, r)
    ensures var st' := ScanRow(db, cat, free, p, st, row, r);
            if Accepts(cur, cat, free, p, r)
            then RowNumbers(ToInsert(st'.prepared)) == RowNumbers(ToInsert(st.prepared)) + [row]
                 && Simulates(db, cat, free, p, tokens, st', CreateOne(cur, cat, free, p, market, r))
            else ToInsert(st'.prepared) == ToInsert(st.prepared) && Simulates(db, cat, free, p, tokens, st', cur)
  {
    hide ScanRow, Created, CreatedFrom;
    var st' := ScanRow(db, cat, free, p, st, row, r);
    JudgedAlike(db, cat, free, p, st, cur, row, r);
    if Accepts(cur, cat, free, p, r) {
      SingleOnlyIsTheRest(cur, cat, free, p, r);
      PricedIgnoresMarket(cur, market(r.symbol), p, RowTx(r));
      AcceptedSimulates(db, cat, free, p, tokens, st, cur, st', Prepared(row, RowTx(r), r.symbol !in st.held, false), r.hash);
    }
  }

  /** No row from i on repeats a hash that the pass has seen. */
  ghost predicate Unseen(db: Db, cat: Catalog, p: int, rows: seq<CsvRow>, i: nat, seen: set<string>) {
    forall j :: i <= j < |rows| && RowOk(cat, rows[j]) && NewHash(db, p, rows[j].hash) ==> rows[j].hash !in seen
  }

  lemma UnseenStep(db: Db, cat: Catalog, free: bool, p: int, st: Scan, rows: seq<CsvRow>, i: nat)
    requires i < |rows| && DistinctHashes(db, cat, p, rows) && Unseen(db, cat, p, rows, i, st.seen)
    ensures Unseen(db, cat, p, rows, i + 1, ScanRow(db, cat, free, p, st, i + 1, rows[i]).seen)
  {
    var seen' := ScanRow(db, cat, free, p, st, i + 1, rows[i]).seen;
    assert seen' == st.seen || (RowOk(cat, rows[i]) && NewHash(db, p, rows[i].hash) && seen' == st.seen + {rows[i].hash});
  }

  lemma {:induction false} RowsSimulate(
    db: Db, cat: Catalog, free: bool, p: int, market: Market, tokens: set<string>, st: Scan, cur: Db, rows: seq<CsvRow>, i: nat)
    requires Symbols(rows) <= tokens
    requires i <= |rows| && Simulates(db, cat, free, p, tokens, st, cur)
    requires DistinctHashes(db, cat, p, rows) && Unseen(db, cat, p, rows, i, st.seen)
    requires RefusesSingleOnly(cur, cat, free, p, market, rows, i)
    ensures var st' := ScanRows(db, cat, free, p, st, rows, i);
            var (last, accepted) := CreateEach(cur, cat, free, p, market, rows, i, RowNumbers(ToInsert(st.prepared)));
            RowNumbers(ToInsert(st'.prepared)) == accepted && Simulates(db, cat, free, p, tokens, st', last)
    decreases |rows| - i
  {
    hide ScanRow, Created, CreatedFrom, HoldingsBalanced, NoLeftovers, HashTaken, BodyOk, SingleOnly;
    if i < |rows| {
      var st' := ScanRow(db, cat, free, p, st, i + 1, rows[i]);
      UnseenStep(db, cat, free, p, st, rows, i);
      assert rows[i].symbol in Symbols(rows);
      RowSimulates(db, cat, free, p, market, tokens, st, cur, i + 1, rows[i]);
      if Accepts(cur, cat, free, p, rows[i]) {
        RowsSimulate(db, cat, free, p, market, tokens, st', CreateOne(cur, cat, free, p, market, rows[i]), rows, i + 1);
      } else {
        RowsSimulate(db, cat, free, p, market, tokens, st', cur, rows, i + 1);
      }
    }
  }

  lemma HashesStart(db: Db, p: int)
    ensures HashesOk(db, p, {}, db)
  {
    forall r | r in db.rows && r.portfolio == p && r.hash.Some? ensures HashTaken(db.rows, p, r.hash) {
      var i :| 0 <= i < |db.rows| && db.rows[i] == r;
    }
  }

  /** At its turn the single-create endpoint refuses every line that only it could take. */
  ghost predicate RefusesSingleOnly(
    cur: Db, cat: Catalog, free: bool, p: int, market: Market, rows: seq<CsvRow>, i: nat)
    requires p in cur.portfolios && i <= |rows|
    decreases |rows| - i
  {
    i == |rows| ||
    if Accepts(cur, cat, free, p, rows[i])
    then !SingleOnly(cat, rows[i])
         && RefusesSingleOnly(CreateOne(cur, cat, free, p, market, rows[i]), cat, free, p, market, rows, i + 1)
    else RefusesSingleOnly(cur, cat, free, p, market, rows, i + 1)
  }

  lemma RefusesMeansAgrees(db: Db, cat: Catalog, free: bool, p: int, market: Market, rows: seq<CsvRow>)
    requires p in db.portfolios && db.portfolios[p].kind == Manual && |rows| <= BULK_ROW_CAP
    requires HoldingsBalanced(db, p) && NoLeftovers(db, cat, free, p, Symbols(rows)) && DistinctHashes(db, cat, p, rows)
    requires RefusesSingleOnly(db, cat, free, p, market, rows, 0)
    ensures BulkAgrees(db, cat, free, p, market, rows)
  {
    HashesStart(db, p);
    RowsSimulate(db, cat, free, p, market, Symbols(rows), StartScan(db, p), db, rows, 0);
    var st := ScanRows(db, cat, free, p, StartScan(db, p), rows, 0);
    assert RowNumbers(ToInsert([])) == [];
    CreatedFromIsWritten(db, p, ToInsert(st.prepared), CreateEach(db, cat, free, p, market, rows, 0, []).0);
  }

  ghost predicate RowsOk(cat: Catalog, rows: seq<CsvRow>, ps: seq<Prepared>) {
    forall q :: q in ps ==> 1 <= q.row <= |rows| && RowOk(cat, rows[q.row-1])
  }

  lemma {:induction false} ToInsertMembers(ps: seq<Prepared>)
    ensures forall q :: q in ToInsert(ps) ==> q in ps
  {
    if ps != [] {
      ToInsertMembers(ps[1..]);
    }
  }

  lemma {:induction false} PreparedAreOk(
    db: Db, cat: Catalog, free: bool, p: int, st: Scan, rows: seq<CsvRow>, i: nat)
    requires i <= |rows| && RowsOk(cat, rows, st.prepared)
    ensures RowsOk(cat, rows, ScanRows(db, cat, free, p, st, rows, i).prepared)
    decreases |rows| - i
  {
    hide CellsOk, HashTaken;
    if i < |rows| {
      PreparedAreOk(db, cat, free, p, ScanRow(db, cat, free, p, st, i + 1, rows[i]), rows, i + 1);
    }
  }

  /** The import takes only lines that pass its cell checks. */
  lemma AcceptedAreOk(db: Db, cat: Catalog, free: bool, p: int, rows: seq<CsvRow>, n: nat)
    requires p in db.portfolios && n in Accepted(db, cat, free, p, rows)
    ensures 1 <= n <= |rows| && RowOk(cat, rows[n-1])
  {
    hide ScanRows, CellsOk;
    var ps := ScanRows(db, cat, free, p, StartScan(db, p), rows, 0).prepared;
    PreparedAreOk(db, cat, free, p, StartScan(db, p), rows, 0);
    ToInsertMembers(ps);
  }

  lemma {:induction false} TakesSingleOnly(
    cur: Db, cat: Catalog, free: bool, p: int, market: Market, rows: seq<CsvRow>, i: nat, accepted: seq<nat>)
    returns (n: nat)
    requires p in cur.portfolios && i <= |rows| && !RefusesSingleOnly(cur, cat, free, p, market, rows, i)
    ensures n in CreateEach(cur, cat, free, p, market, rows, i, accepted).1 && 1 <= n <= |rows| && SingleOnly(cat, rows[n-1])
    decreases |rows| - i
  {
    hide Accepts, SingleOnly, CreateOne, CreateTransaction, RowTx;
    if Accepts(cur, cat, free, p, rows[i]) {
      var nxt := CreateOne(cur, cat, free, p, market, rows[i]);
      if SingleOnly(cat, rows[i]) {
        n := i + 1;
        AcceptedStay(nxt, cat, free, p, market, rows, i + 1, accepted + [n]);
        assert (accepted + [n])[|accepted|] == n;
      } else {
        n := TakesSingleOnly(nxt, cat, free, p, market, rows, i + 1, accepted + [i + 1]);
      }
    } else {
      n := TakesSingleOnly(cur, cat, free, p, market, rows, i + 1, accepted);
    }
  }

  /**
    Fast form refines simple form. Unless a token the file names has leftovers, the import accepts row i
    exactly when the single create would at that point, and leaves exactly the tables that creating the
    accepted rows one by one leaves, if and only if the single create takes no line that the import's
    cells reject. Rows whose hash is already in the table are skipped on both sides.
   */
  lemma BulkRefinesSinglesIff(db: Db, cat: Catalog, free: bool, p: int, market: Market, rows: seq<CsvRow>)
    requires p in db.portfolios && db.portfolios[p].kind == Manual && |rows| <= BULK_ROW_CAP
    requires HoldingsBalanced(db, p) && NoLeftovers(db, cat, free, p, Symbols(rows)) && DistinctHashes(db, cat, p, rows)
    ensures BulkAgrees(db, cat, free, p, market, rows) <==> RefusesSingleOnly(db, cat, free, p, market, rows, 0)
  {
    hide RefusesSingleOnly, BulkCreate, Accepted, CreateEach;
    if RefusesSingleOnly(db, cat, free, p, market, rows, 0) {
      RefusesMeansAgrees(db, cat, free, p, market, rows);
    } else {
      var n := TakesSingleOnly(db, cat, free, p, market, rows, 0, []);
      SingleOnlyIsTheRest(db, cat, free, p, rows[n-1]);
      if n in Accepted(db, cat, free, p, rows) {
        AcceptedAreOk(db, cat, free, p, rows, n);
      }
    }
  }

  /** The single create takes such a line as it stands: guards of the source, not of the run. */
  predicate TakesNow(db: Db, cat: Catalog, free: bool, p: int, r: CsvRow)
    requires p in db.portfolios && SingleOnly(cat, r)
  {
    var assets := db.portfolios[p].assets;
    && (r.hash == "" || NewHash(db, p, r.hash))
    && match r.kind
       case TypeBuy => r.symbol in assets || RankAllowed(cat[r.symbol], free)
       case TypeSell => r.symbol in assets && r.amount.value <= assets[r.symbol].p.balance
       case _ => r.symbol in assets
  }

  /** One otherwise valid line of type transfer, or with a blank or zero price, makes the two part. */
  lemma OneLineIff(db: Db, cat: Catalog, free: bool, p: int, market: Market, r: CsvRow)
    requires p in db.portfolios && db.portfolios[p].kind == Manual
    requires HoldingsBalanced(db, p) && NoLeftovers(db, cat, free, p, {r.symbol})
    ensures BulkAgrees(db, cat, free, p, market, [r]) <==> !(SingleOnly(cat, r) && TakesNow(db, cat, free, p, r))
  {
    hide BulkAgrees, CreateOne;
    assert Symbols([r]) == {r.symbol};
    BulkRefinesSinglesIff(db, cat, free, p, market, [r]);
  }

  /** No line of the file is one that only the single create could take. */
  predicate ForImport(cat: Catalog, rows: seq<CsvRow>) { forall i :: 0 <= i < |rows| ==> !SingleOnly(cat, rows[i]) }

  lemma {:induction false} ForImportRefuses(
    cur: Db, cat: Catalog, free: bool, p: int, market: Market, rows: seq<CsvRow>, i: nat)
    requires p in cur.portfolios && i <= |rows| && ForImport(cat, rows)
    ensures RefusesSingleOnly(cur, cat, free, p, market, rows, i)
    decreases |rows| - i
  {
    hide Accepts, SingleOnly;
    if i < |rows| {
      if Accepts(cur, cat, free, p, rows[i]) {
        ForImportRefuses(CreateOne(cur, cat, free, p, market, rows[i]), cat, free, p, market, rows, i + 1);
      } else {
        ForImportRefuses(cur, cat, free, p, market, rows, i + 1);
      }
    }
  }

  /** Files of priced purchases and sales, and of lines that nobody takes. */
  lemma BulkRefinesSingles(db: Db, cat: Catalog, free: bool, p: int, market: Market, rows: seq<CsvRow>)
    requires p in db.portfolios && db.portfolios[p].kind == Manual && |rows| <= BULK_ROW_CAP && ForImport(cat, rows)
    requires HoldingsBalanced(db, p) && NoLeftovers(db, cat, free, p, Symbols(rows)) && DistinctHashes(db, cat, p, rows)
    ensures BulkAgrees(db, cat, free, p, market, rows)
  {
    hide BulkAgrees, RefusesSingleOnly;
    ForImportRefuses(db, cat, free, p, market, rows, 0);
    RefusesMeansAgrees(db, cat, free, p, market, rows);
  }

  ghost predicate BulkAgrees(db: Db, cat: Catalog, free: bool, p: int, market: Market, rows: seq<CsvRow>)
    requires p in db.portfolios
  {
    var r := BulkCreate(db, cat, free, p, SkipInvalid, rows);
    var (last, accepted) := CreateEach(db, cat, free, p, market, rows, 0, []);
    r.Ok? && r.value.0 == last && Accepted(db, cat, free, p, rows) == accepted
  }

  // ---------------------------------------------------------------------------------------------
  // Leftover rows of a removed asset
  // ---------------------------------------------------------------------------------------------

  /** On every file about these tokens. */
  ghost predicate BulkAgreesOn(db: Db, cat: Catalog, free: bool, p: int, market: Market, tokens: set<string>)
    requires p in db.portfolios
  {
    forall rows :: Importable(db, cat, p, rows, tokens) ==> BulkAgrees(db, cat, free, p, market, rows)
  }

  ghost predicate Importable(db: Db, cat: Catalog, p: int, rows: seq<CsvRow>, tokens: set<string>) {
    |rows| <= BULK_ROW_CAP && ForImport(cat, rows) && DistinctHashes(db, cat, p, rows) && Symbols(rows) <= tokens
  }

  function Line(kind: TypeCell, s: string, amount: real, hash: string): CsvRow {
    CsvRow(kind, s, Num(amount), Num(1.0), Day(0), NumBlank, hash, true)
  }

  /** A bought-back token starts from its leftover rows, not from zero. */
  lemma LeftoverBalance(db: Db, p: int, tx: NewTx)
    requires p in db.portfolios && db.portfolios[p].kind == Manual && tx.symbol !in db.portfolios[p].assets
    requires tx.kind == Native && tx.dir == Buy
    ensures var nxt := Created(db, 0.0, p, tx);
            && p in nxt.portfolios && nxt.portfolios[p].kind == Manual && tx.symbol in nxt.portfolios[p].assets
            && nxt.portfolios[p].assets[tx.symbol].p.balance == NetQty(EventsOf(db.rows, p, tx.symbol)) + tx.amount
  {
    var s, nxt := tx.symbol, Created(db, 0.0, p, tx);
    var r := NewRow(0, p, tx, 0.0);
    AppendEvents(EnsureAsset(db, p, s), r, p, s);
    NetAppend(EventsOf(db.rows, p, s), [ToEvent(r.(id := db.nextId))]);
    assert Settled(nxt, p, s) && HasAsset(nxt, p, s);
    SettledIsBalanced(nxt, p, s);
  }

  lemma ScanBuyThenSell(db: Db, cat: Catalog, free: bool, p: int, s: string, a: real, b: real)
    requires p in db.portfolios && Buyable(db, cat, free, p, s) && 0.0 < a < MAX_DECIMAL && 0.0 < b < MAX_DECIMAL
    ensures var st1 := ScanRow(db, cat, free, p, StartScan(db, p), 1, Line(TypeBuy, s, a, ""));
            var st2 := ScanRow(db, cat, free, p, st1, 2, Line(TypeSell, s, b, ""));
            RowNumbers(ToInsert(st2.prepared)) == if b <= a then [1, 2] else [1]
  {
    hide HashTaken, CellErrors, RowErrors, ToInsert;
    var buy, sell := Line(TypeBuy, s, a, ""), Line(TypeSell, s, b, "");
    var q1, q2 := Prepared(1, RowTx(buy), true, false), Prepared(2, RowTx(sell), false, false);
    var st1 := ScanRow(db, cat, free, p, StartScan(db, p), 1, buy);
    assert st1.prepared == [q1] && s in st1.held && Balance(st1, s) == a;
    InsertsBoth(q1, q2);
  }

  lemma InsertsBoth(q1: Prepared, q2: Prepared)
    requires !q1.duplicate && !q2.duplicate
    ensures ToInsert([q1]) == [q1] && ToInsert([q1] + [q2]) == [q1, q2]
  {
    ToInsertSnoc([], q1);
    ToInsertSnoc([q1], q2);
    assert [] + [q1] == [q1] && [q1] + [q2] == [q1, q2];
  }

  /** The import of "buy a, then sell b" for an unheld token. */
  lemma BulkBuyThenSell(db: Db, cat: Catalog, free: bool, p: int, s: string, a: real, b: real)
    requires p in db.portfolios && Buyable(db, cat, free, p, s) && 0.0 < a < MAX_DECIMAL && 0.0 < b < MAX_DECIMAL
    ensures Accepted(db, cat, free, p, [Line(TypeBuy, s, a, ""), Line(TypeSell, s, b, "")]) == if b <= a then [1, 2] else [1]
  {
    hide ScanRow, ToInsert, Buyable;
    var buy, sell := Line(TypeBuy, s, a, ""), Line(TypeSell, s, b, "");
    var rows := [buy, sell];
    var st0 := StartScan(db, p);
    var st1 := ScanRow(db, cat, free, p, st0, 1, buy);
    var st2 := ScanRow(db, cat, free, p, st1, 2, sell);
    assert ScanRows(db, cat, free, p, st0, rows, 0) == ScanRows(db, cat, free, p, st1, rows, 1)
        == ScanRows(db, cat, free, p, st2, rows, 2) == st2;
    ScanBuyThenSell(db, cat, free, p, s, a, b);
  }

  /** Single creates of the same two rows: the sale is measured against the leftover rows too. */
  lemma SinglesBuyThenSell(db: Db, cat: Catalog, free: bool, p: int, market: Market, s: string, a: real, b: real)
    requires p in db.portfolios && db.portfolios[p].kind == Manual && s !in db.portfolios[p].assets
    requires SymbolOk(cat, s) && RankAllowed(cat[s], free) && 0.0 < a < MAX_DECIMAL && 0.0 < b < MAX_DECIMAL
    ensures CreateEach(db, cat, free, p, market, [Line(TypeBuy, s, a, ""), Line(TypeSell, s, b, "")], 0, []).1
         == if b <= NetQty(EventsOf(db.rows, p, s)) + a then [1, 2] else [1]
  {
    hide Created;
    var buy, sell := Line(TypeBuy, s, a, ""), Line(TypeSell, s, b, "");
    var rows := [buy, sell];
    LeftoverBalance(db, p, RowTx(buy));
    PricedIgnoresMarket(db, market(s), p, RowTx(buy));
    assert Accepts(db, cat, free, p, buy);
    var nxt := CreateOne(db, cat, free, p, market, buy);
    var takes := b <= NetQty(EventsOf(db.rows, p, s)) + a;
    assert Accepts(nxt, cat, free, p, sell) <==> takes;
    assert CreateEach(db, cat, free, p, market, rows, 0, []) == CreateEach(nxt, cat, free, p, market, rows, 1, [1]) by {
      assert [] + [1] == [1];
    }
    assert CreateEach(nxt, cat, free, p, market, rows, 1, [1]).1 == if takes then [1] + [2] else [1];
    assert [1] + [2] == [1, 2];
  }

  /**
    The import agrees with single creates on every file about a set of tokens exactly when no buyable
    one of them has leftover rows: with leftovers, the running balance of a bought-back token starts at
    zero while the ledger counts the old rows in.
   */
  lemma BulkAgreesIffNoLeftovers(db: Db, cat: Catalog, free: bool, p: int, market: Market, tokens: set<string>)
    requires p in db.portfolios && db.portfolios[p].kind == Manual && HoldingsBalanced(db, p)
    ensures BulkAgreesOn(db, cat, free, p, market, tokens) <==> NoLeftovers(db, cat, free, p, tokens)
  {
    hide BulkAgrees;
    if NoLeftovers(db, cat, free, p, tokens) {
      forall rows | Importable(db, cat, p, rows, tokens) ensures BulkAgrees(db, cat, free, p, market, rows) {
        BulkRefinesSingles(db, cat, free, p, market, rows);
      }
    } else {
      var s :| s in tokens && Buyable(db, cat, free, p, s) && NetQty(EventsOf(db.rows, p, s)) != 0.0;
      var n := NetQty(EventsOf(db.rows, p, s));
      var b := 1.0 + if n > 0.0 then Min(n, 1.0) else 0.0;
      LeftoversDisagree(db, cat, free, p, market, s, 1.0, b, tokens);
    }
  }

  /** Between the two answers to "is b covered", the file and the single creates part. */
  lemma LeftoversDisagree(
    db: Db, cat: Catalog, free: bool, p: int, market: Market, s: string, a: real, b: real, tokens: set<string>)
    requires p in db.portfolios && db.portfolios[p].kind == Manual && Buyable(db, cat, free, p, s) && s in tokens
    requires 0.0 < a < MAX_DECIMAL && 0.0 < b < MAX_DECIMAL
    requires b <= a <==> b > NetQty(EventsOf(db.rows, p, s)) + a
    ensures !BulkAgreesOn(db, cat, free, p, market, tokens)
  {
    hide BulkCreate, CreateEach, Accepted, Created;
    var rows := [Line(TypeBuy, s, a, ""), Line(TypeSell, s, b, "")];
    BulkBuyThenSell(db, cat, free, p, s, a, b);
    SinglesBuyThenSell(db, cat, free, p, market, s, a, b);
    assert !BulkAgrees(db, cat, free, p, market, rows);
    assert Symbols(rows) <= {s};
    assert Importable(db, cat, p, rows, tokens);
  }

  /** Removing an asset whose rows do not net to zero makes some file about that token disagree. */
  lemma RemovalLeavesLeftovers(db: Db, cat: Catalog, free: bool, p: int, market: Market, s: string)
    requires HasAsset(db, p, s) && SymbolOk(cat, s) && RankAllowed(cat[s], free)
    requires HoldingsBalanced(db, p) && NetQty(EventsOf(db.rows, p, s)) != 0.0
    ensures var r := RemoveAsset(db, p, s); r.Ok? && !BulkAgreesOn(r.value, cat, free, p, market, {s})
  {
    RemoveAssetKeeps(db, p, s);
    var db' := RemoveAsset(db, p, s).value;
    assert s !in db'.portfolios[p].assets && db'.rows == db.rows;
    BulkAgreesIffNoLeftovers(db', cat, free, p, market, {s});
  }

  // ---------------------------------------------------------------------------------------------
  // Repeated hashes
  // ---------------------------------------------------------------------------------------------

  /** Every file with this hash column is imported as if created row by row. */
  ghost predicate AgreesWithColumn(db: Db, cat: Catalog, free: bool, p: int, market: Market, col: seq<string>)
    requires p in db.portfolios
  {
    forall rows :: ForImport(cat, rows) && HasColumn(rows, col) ==> BulkAgrees(db, cat, free, p, market, rows)
  }

  predicate HasColumn(rows: seq<CsvRow>, col: seq<string>) {
    |rows| == |col| && forall i :: 0 <= i < |col| ==> rows[i].hash == col[i]
  }

  ghost predicate DistinctNew(db: Db, p: int, col: seq<string>) {
    forall i, j :: 0 <= i < j < |col| && NewHash(db, p, col[i]) ==> col[i] != col[j]
  }

  /** A token that can be bought and of which more than is held can be put up for sale. */
  predicate Oversellable(db: Db, cat: Catalog, free: bool, p: int, s: string)
    requires p in db.portfolios
  {
    var assets := db.portfolios[p].assets;
    SymbolOk(cat, s) && (s in assets || RankAllowed(cat[s], free)) && Held(assets, s) < MAX_DECIMAL
  }

  /** An amount above what is held and below the limit. */
  function TooMuch(held: real): real { ((if held > 0.0 then held else 0.0) + MAX_DECIMAL) / 2.0 }

  /** An oversized sale on line i, a purchase on line j, and lines without a type elsewhere. */
  function Claiming(col: seq<string>, i: nat, j: nat, s: string, b: real): seq<CsvRow> {
    seq(|col|, k requires 0 <= k < |col| =>
      Line(if k == i then TypeSell else if k == j then TypeBuy else TypeBlank, s, if k == i then b else 1.0, col[k]))
  }

  /**
    A sale that is refused still claims its hash, so a later purchase with the same hash is skipped as a
    duplicate although a single create would take it. Exactly the hash columns whose new entries are
    distinct are safe from this, whatever else the file holds.
   */
  lemma AgreesIffDistinctNew(db: Db, cat: Catalog, free: bool, p: int, market: Market, col: seq<string>, s: string)
    requires p in db.portfolios && db.portfolios[p].kind == Manual && |col| <= BULK_ROW_CAP
    requires HoldingsBalanced(db, p) && NoLeftovers(db, cat, free, p, cat.Keys) && Oversellable(db, cat, free, p, s)
    ensures AgreesWithColumn(db, cat, free, p, market, col) <==> DistinctNew(db, p, col)
  {
    hide BulkAgrees, HashTaken, CellsOk, Oversellable;
    if DistinctNew(db, p, col) {
      forall rows | ForImport(cat, rows) && HasColumn(rows, col) ensures BulkAgrees(db, cat, free, p, market, rows) {
        BulkRefinesSingles(db, cat, free, p, market, rows);
      }
    } else {
      var i, j :| 0 <= i < j < |col| && NewHash(db, p, col[i]) && col[i] == col[j];
      var rows := Claiming(col, i, j, s, TooMuch(Held(db.portfolios[p].assets, s)));
      assert HasColumn(rows, col);
      RefusedSaleClaims(db, cat, free, p, market, col, i, j, s);
    }
  }

  lemma RefusedSaleClaims(db: Db, cat: Catalog, free: bool, p: int, market: Market, col: seq<string>, i: nat, j: nat, s: string)
    requires p in db.portfolios && db.portfolios[p].kind == Manual && Oversellable(db, cat, free, p, s)
    requires i < j < |col| && NewHash(db, p, col[i]) && col[i] == col[j]
    ensures !BulkAgrees(db, cat, free, p, market, Claiming(col, i, j, s, TooMuch(Held(db.portfolios[p].assets, s))))
  {
    hide ScanRow, BulkCreate, CreateEach;
    var rows := Claiming(col, i, j, s, TooMuch(Held(db.portfolios[p].assets, s)));
    NothingInserted(db, cat, free, p, StartScan(db, p), col, i, j, s, 0);
    JudgedAtStart(db, cat, free, p, col, i, j, s);
    NoneAccepted(db, cat, free, p, market, rows, 0, j);
    FirstAccepted(db, cat, free, p, market, rows, j);
    assert RowNumbers([]) == [];
  }

  /** The pass has rejected or skipped everything so far and has seen the hash once past line i. */
  ghost predicate Idle(db: Db, p: int, st: Scan, claimed: bool, hash: string)
    requires p in db.portfolios
  {
    && ToInsert(st.prepared) == [] && st.held == StartScan(db, p).held && st.running == StartScan(db, p).running
    && (claimed ==> hash in st.seen)
  }

  lemma {:induction false} NothingInserted(
    db: Db, cat: Catalog, free: bool, p: int, st: Scan, col: seq<string>, i: nat, j: nat, s: string, k: nat)
    requires p in db.portfolios && Oversellable(db, cat, free, p, s)
    requires i < j < |col| && NewHash(db, p, col[i]) && col[i] == col[j] && k <= |col|
    requires Idle(db, p, st, i < k, col[i])
    ensures var rows := Claiming(col, i, j, s, TooMuch(Held(db.portfolios[p].assets, s)));
            ToInsert(ScanRows(db, cat, free, p, st, rows, k).prepared) == []
    decreases |col| - k
  {
    hide ScanRow, Idle, HashTaken, Oversellable;
    var rows := Claiming(col, i, j, s, TooMuch(Held(db.portfolios[p].assets, s)));
    if k < |col| {
      IdleStep(db, cat, free, p, st, col, i, j, s, k);
      NothingInserted(db, cat, free, p, ScanRow(db, cat, free, p, st, k + 1, rows[k]), col, i, j, s, k + 1);
    } else {
      assert Idle(db, p, st, true, col[i]);
      IdleInsertsNothing(db, p, st, col[i]);
    }
  }

  lemma IdleInsertsNothing(db: Db, p: int, st: Scan, hash: string)
    requires p in db.portfolios && Idle(db, p, st, true, hash)
    ensures ToInsert(st.prepared) == []
  {
  }

  lemma IdleStep(db: Db, cat: Catalog, free: bool, p: int, st: Scan, col: seq<string>, i: nat, j: nat, s: string, k: nat)
    requires p in db.portfolios && Oversellable(db, cat, free, p, s)
    requires i < j < |col| && NewHash(db, p, col[i]) && col[i] == col[j] && k < |col|
    requires Idle(db, p, st, i < k, col[i])
    ensures var rows := Claiming(col, i, j, s, TooMuch(Held(db.portfolios[p].assets, s)));
            Idle(db, p, ScanRow(db, cat, free, p, st, k + 1, rows[k]), i < k + 1, col[i])
  {
    hide HashTaken, CellErrors;
    var r := Claiming(col, i, j, s, TooMuch(Held(db.portfolios[p].assets, s)))[k];
    assert Balance(st, s) == Held(db.portfolios[p].assets, s);
    if k == i || k == j {
      ToInsertSnoc(st.prepared, Prepared(k + 1, RowTx(r), false, true));
    }
  }

  /** Until line j the single creates refuse everything; the purchase they take. */
  lemma JudgedAtStart(db: Db, cat: Catalog, free: bool, p: int, col: seq<string>, i: nat, j: nat, s: string)
    requires p in db.portfolios && db.portfolios[p].kind == Manual && Oversellable(db, cat, free, p, s)
    requires i < j < |col| && NewHash(db, p, col[i]) && col[i] == col[j]
    ensures var rows := Claiming(col, i, j, s, TooMuch(Held(db.portfolios[p].assets, s)));
            Accepts(db, cat, free, p, rows[j]) && forall k :: 0 <= k < j ==> !Accepts(db, cat, free, p, rows[k])
  {
    hide HashTaken;
  }

  lemma {:induction false} NoneAccepted(
    db: Db, cat: Catalog, free: bool, p: int, market: Market, rows: seq<CsvRow>, k: nat, j: nat)
    requires p in db.portfolios && k <= j <= |rows| && forall m :: k <= m < j ==> !Accepts(db, cat, free, p, rows[m])
    ensures CreateEach(db, cat, free, p, market, rows, k, []) == CreateEach(db, cat, free, p, market, rows, j, [])
    decreases j - k
  {
    hide Accepts;
    if k < j {
      NoneAccepted(db, cat, free, p, market, rows, k + 1, j);
    }
  }

  lemma {:induction false} AcceptedStay(
    db: Db, cat: Catalog, free: bool, p: int, market: Market, rows: seq<CsvRow>, k: nat, accepted: seq<nat>)
    requires p in db.portfolios && k <= |rows|
    ensures forall n :: n in accepted ==> n in CreateEach(db, cat, free, p, market, rows, k, accepted).1
    decreases |rows| - k
  {
    hide Accepts;
    if k < |rows| {
      if Accepts(db, cat, free, p, rows[k]) {
        AcceptedStay(CreateOne(db, cat, free, p, market, rows[k]), cat, free, p, market, rows, k + 1, accepted + [k + 1]);
      } else {
        AcceptedStay(db, cat, free, p, market, rows, k + 1, accepted);
      }
    }
  }

  lemma FirstAccepted(db: Db, cat: Catalog, free: bool, p: int, market: Market, rows: seq<CsvRow>, j: nat)
    requires p in db.portfolios && j < |rows| && Accepts(db, cat, free, p, rows[j])
    ensures CreateEach(db, cat, free, p, market, rows, j, []).1 != []
  {
    AcceptedStay(CreateOne(db, cat, free, p, market, rows[j]), cat, free, p, market, rows, j + 1, [] + [j + 1]);
    assert j + 1 in [] + [j + 1];
  }

  // ---------------------------------------------------------------------------------------------
  // skip_invalid against all_or_nothing
  // ---------------------------------------------------------------------------------------------

  /** The rows from i on that the pass does not reject. */
  function Kept(db: Db, cat: Catalog, free: bool, p: int, st: Scan, rows: seq<CsvRow>, i: nat): (r: seq<CsvRow>)
    requires i <= |rows|
    ensures |r| <= |rows| - i
    decreases |rows| - i
  {
    if i == |rows| then []
    else
      var st' := ScanRow(db, cat, free, p, st, i + 1, rows[i]);
      (if st'.errors == st.errors then [rows[i]] else []) + Kept(db, cat, free, p, st', rows, i + 1)
  }

  /** Two batches that differ in row numbers only. */
  ghost predicate SameBatch(ps: seq<Prepared>, qs: seq<Prepared>) {
    |ps| == |qs| && forall k :: 0 <= k < |ps| ==> ps[k] == qs[k].(row := ps[k].row)
  }

  lemma {:induction false} SameToInsert(ps: seq<Prepared>, qs: seq<Prepared>)
    requires SameBatch(ps, qs)
    ensures SameBatch(ToInsert(ps), ToInsert(qs))
  {
    if ps != [] {
      SameToInsert(ps[1..], qs[1..]);
    }
  }

  lemma {:induction false} SameInsertAll(db: Db, p: int, ps: seq<Prepared>, qs: seq<Prepared>)
    requires p in db.portfolios && SameBatch(ps, qs)
    ensures InsertAll(db, p, ps) == InsertAll(db, p, qs)
    decreases ps
  {
    if ps != [] {
      SameInsertAll(InsertRow(db, p, ps[0]), p, ps[1..], qs[1..]);
    }
  }

  lemma SameWritten(db: Db, p: int, ps: seq<Prepared>, qs: seq<Prepared>)
    requires p in db.portfolios && SameBatch(ps, qs)
    ensures Written(db, p, ps) == Written(db, p, qs)
  {
    SameInsertAll(db, p, ps, qs);
    assert Touched(p, ps) == Touched(p, qs) by {
      forall x | x in Touched(p, ps) ensures x in Touched(p, qs) {
        var k :| 0 <= k < |ps| && x == (p, ps[k].tx.symbol);
        assert qs[k] in qs;
      }
      forall x | x in Touched(p, qs) ensures x in Touched(p, ps) {
        var k :| 0 <= k < |qs| && x == (p, qs[k].tx.symbol);
        assert ps[k] in ps;
      }
    }
  }

  /** The pass over the kept rows mirrors the pass over the whole file. */
  ghost predicate Mirrors(st: Scan, kept: Scan) {
    && kept.running == st.running && kept.held == st.held && kept.errors == [] && kept.seen <= st.seen
    && SameBatch(st.prepared, kept.prepared)
  }

  lemma JudgeMirrors(cat: Catalog, free: bool, st: Scan, kept: Scan, i: nat, j: nat, tx: NewTx)
    requires Mirrors(st, kept) && tx.symbol in cat
    ensures var st' := Judge(cat, free, st, i, tx);
            && (st'.errors == st.errors || |st'.errors| > |st.errors|)
            && Mirrors(st', if st'.errors == st.errors then Judge(cat, free, kept, j, tx) else kept)
  {
  }

  lemma RowMirrors(db: Db, cat: Catalog, free: bool, p: int, st: Scan, kept: Scan, i: nat, j: nat, r: CsvRow)
    requires Mirrors(st, kept) && RowFresh(db, cat, p, st.seen, r)
    ensures var st' := ScanRow(db, cat, free, p, st, i, r);
            Mirrors(st', if st'.errors == st.errors then ScanRow(db, cat, free, p, kept, j, r) else kept)
  {
    hide HashTaken, CellErrors, Judge;
    NoCellErrors(cat, r);
    if !CellsOk(cat, r) {
      assert |RowErrors(i, CellErrors(cat, r))| > 0;
    } else if r.textOk {
      var tx := RowTx(r);
      var st1 := if tx.hash.Some? then st.(seen := st.seen + {r.hash}) else st;
      var kept1 := if tx.hash.Some? then kept.(seen := kept.seen + {r.hash}) else kept;
      JudgeMirrors(cat, free, st1, kept1, i, j, tx);
      JudgeMirrors(cat, free, st1, kept, i, j, tx);
    }
  }

  lemma {:induction false} KeptMirrors(
    db: Db, cat: Catalog, free: bool, p: int, st: Scan, rows: seq<CsvRow>, i: nat, kept: Scan, ks: seq<CsvRow>, j: nat)
    requires i <= |rows| && j <= |ks| && ks[j..] == Kept(db, cat, free, p, st, rows, i)
    requires Mirrors(st, kept) && DistinctHashes(db, cat, p, rows) && Unseen(db, cat, p, rows, i, st.seen)
    ensures Mirrors(ScanRows(db, cat, free, p, st, rows, i), ScanRows(db, cat, free, p, kept, ks, j))
    decreases |rows| - i
  {
    hide ScanRow, RowOk, Mirrors, Unseen;
    if i < |rows| {
      var st' := ScanRow(db, cat, free, p, st, i + 1, rows[i]);
      UnseenStep(db, cat, free, p, st, rows, i);
      UnseenNow(db, cat, p, rows, i, st.seen);
      RowMirrors(db, cat, free, p, st, kept, i + 1, j + 1, rows[i]);
      if st'.errors == st.errors {
        assert ks[j] == rows[i] && ks[j+1..] == ks[j..][1..] == Kept(db, cat, free, p, st', rows, i + 1);
        KeptMirrors(db, cat, free, p, st', rows, i + 1, ScanRow(db, cat, free, p, kept, j + 1, ks[j]), ks, j + 1);
      } else {
        assert Kept(db, cat, free, p, st, rows, i) == Kept(db, cat, free, p, st', rows, i + 1);
        KeptMirrors(db, cat, free, p, st', rows, i + 1, kept, ks, j);
      }
    }
  }

  lemma UnseenNow(db: Db, cat: Catalog, p: int, rows: seq<CsvRow>, i: nat, seen: set<string>)
    requires i < |rows| && Unseen(db, cat, p, rows, i, seen)
    ensures RowFresh(db, cat, p, seen, rows[i])
  {
  }

  /**
    On files that repeat no hash, skip_invalid inserts exactly what all_or_nothing inserts on the
    file without its rejected rows.
   */
  lemma SkipInvalidIsFilteredAllOrNothing(db: Db, cat: Catalog, free: bool, p: int, rows: seq<CsvRow>)
    requires p in db.portfolios && db.portfolios[p].kind == Manual && |rows| <= BULK_ROW_CAP && DistinctHashes(db, cat, p, rows)
    ensures var kept := Kept(db, cat, free, p, StartScan(db, p), rows, 0);
            var skip, all := BulkCreate(db, cat, free, p, SkipInvalid, rows), BulkCreate(db, cat, free, p, AllOrNothing, kept);
            skip.Ok? && all.Ok? && skip.value.0 == all.value.0 && skip.value.1.imported == all.value.1.imported
  {
    var st0 := StartScan(db, p);
    var kept := Kept(db, cat, free, p, st0, rows, 0);
    KeptMirrors(db, cat, free, p, st0, rows, 0, st0, kept, 0);
    var a, b := ScanRows(db, cat, free, p, st0, rows, 0), ScanRows(db, cat, free, p, st0, kept, 0);
    SameToInsert(a.prepared, b.prepared);
    SameWritten(db, p, ToInsert(a.prepared), ToInsert(b.prepared));
  }

  lemma {:induction false} KeptAllIff(db: Db, cat: Catalog, free: bool, p: int, st: Scan, rows: seq<CsvRow>, i: nat)
    requires i <= |rows|
    ensures st.errors <= ScanRows(db, cat, free, p, st, rows, i).errors
    ensures Kept(db, cat, free, p, st, rows, i) == rows[i..] <==> ScanRows(db, cat, free, p, st, rows, i).errors == st.errors
    decreases |rows| - i
  {
    hide ScanRow;
    if i < |rows| {
      var st' := ScanRow(db, cat, free, p, st, i + 1, rows[i]);
      RowErrorsGrow(db, cat, free, p, st, i + 1, rows[i]);
      KeptAllIff(db, cat, free, p, st', rows, i + 1);
      assert rows[i..] == [rows[i]] + rows[i+1..];
      if st'.errors == st.errors {
        assert ([rows[i]] + Kept(db, cat, free, p, st', rows, i + 1))[1..] == Kept(db, cat, free, p, st', rows, i + 1);
      }
    }
  }

  lemma RowErrorsGrow(db: Db, cat: Catalog, free: bool, p: int, st: Scan, row: nat, r: CsvRow)
    ensures st.errors <= ScanRow(db, cat, free, p, st, row, r).errors
  {
    hide HashTaken, CellErrors;
  }

  /** All or nothing: a file with a rejected line is refused as a whole, any other is imported as by skip_invalid. */
  lemma AllOrNothingIff(db: Db, cat: Catalog, free: bool, p: int, rows: seq<CsvRow>)
    requires p in db.portfolios && db.portfolios[p].kind == Manual && |rows| <= BULK_ROW_CAP
    ensures var all, skip := BulkCreate(db, cat, free, p, AllOrNothing, rows), BulkCreate(db, cat, free, p, SkipInvalid, rows);
            && (all.Ok? <==> Kept(db, cat, free, p, StartScan(db, p), rows, 0) == rows)
            && (all.Ok? ==> all.value.0 == skip.value.0)
  {
    hide ScanRows, Kept;
    KeptAllIff(db, cat, free, p, StartScan(db, p), rows, 0);
    assert rows[0..] == rows;
  }

  // ---------------------------------------------------------------------------------------------
  // A holding is never sold below zero
  // ---------------------------------------------------------------------------------------------

  function InsertedQty(ps: seq<Prepared>, s: string): real {
    if ps == [] then 0.0
    else (if ps[0].tx.symbol == s then Signed(ps[0].tx.dir, ps[0].tx.amount) else 0.0) + InsertedQty(ps[1..], s)
  }

  lemma {:induction false} InsertedQtySnoc(ps: seq<Prepared>, q: Prepared, s: string)
    ensures InsertedQty(ps + [q], s)
         == InsertedQty(ps, s) + if q.tx.symbol == s then Signed(q.tx.dir, q.tx.amount) else 0.0
  {
    if ps == [] {
      assert ps + [q] == [q];
    } else {
      assert (ps + [q])[1..] == ps[1..] + [q];
      InsertedQtySnoc(ps[1..], q, s);
    }
  }

  /** Rows for a held token: native, and none of them recreates the asset row. */
  ghost predicate KeepsLot(ps: seq<Prepared>, s: string) {
    forall q :: q in ps && q.tx.symbol == s ==> q.tx.kind == Native && !q.createAsset
  }

  lemma {:induction false} InsertAllQty(db: Db, p: int, ps: seq<Prepared>, s: string)
    requires HasAsset(db, p, s) && KeepsLot(ps, s)
    ensures var raw := InsertAll(db, p, ps);
            && HasAsset(raw, p, s) && AssetAt(raw, p, s) == AssetAt(db, p, s)
            && NetQty(EventsOf(raw.rows, p, s)) == NetQty(EventsOf(db.rows, p, s)) + InsertedQty(ps, s)
    decreases ps
  {
    if ps != [] {
      var q, db1 := ps[0], InsertRow(db, p, ps[0]);
      var db0 := if q.createAsset then WithAsset(db, p, q.tx.symbol, EMPTY_ASSET) else db;
      AppendEvents(db0, NewRow(0, p, q.tx, 0.0), p, s);
      var e := ToEvent(NewRow(db.nextId, p, q.tx, 0.0));
      NetAppend(EventsOf(db.rows, p, s), [e]);
      assert NetQty([e]) == Signed(q.tx.dir, q.tx.amount);
      assert q in ps && forall x :: x in ps[1..] ==> x in ps;
      assert EventsOf(db1.rows, p, s) == EventsOf(db.rows, p, s) + if q.tx.symbol == s then [e] else [];
      assert EventsOf(db.rows, p, s) + [] == EventsOf(db.rows, p, s);
      assert HasAsset(db1, p, s) && AssetAt(db1, p, s) == AssetAt(db, p, s);
      InsertAllQty(db1, p, ps[1..], s);
    }
  }

  /** What one row adds to the batch, if it adds anything. */
  ghost predicate Grows(st: Scan, st': Scan, q: Prepared) {
    && st'.prepared == st.prepared + [q]
    && if q.duplicate then st'.running == st.running && st'.held == st.held
       else
         && q.tx.kind == Native && q.createAsset == (q.tx.symbol !in st.held) && (q.createAsset ==> q.tx.dir == Buy)
         && q.tx.amount > 0.0 && q.tx.dir != Transfer && (q.tx.dir == Sell ==> q.tx.amount <= Balance(st, q.tx.symbol))
         && st'.held == st.held + {q.tx.symbol}
         && Balance(st', q.tx.symbol) == (if q.createAsset then 0.0 else Balance(st, q.tx.symbol)) + Signed(q.tx.dir, q.tx.amount)
         && forall s :: s != q.tx.symbol ==> Balance(st', s) == Balance(st, s)
  }

  lemma ScanRowGrows(db: Db, cat: Catalog, free: bool, p: int, st: Scan, row: nat, r: CsvRow)
    ensures var st' := ScanRow(db, cat, free, p, st, row, r);
            || (st'.prepared == st.prepared && st'.running == st.running && st'.held == st.held)
            || (|st'.prepared| == |st.prepared| + 1 && Grows(st, st', st'.prepared[|st.prepared|]))
  {
  }

  /** The running balance of a token held from the start, in terms of the rows prepared so far. */
  ghost predicate Runs(st: Scan, s: string, opening: real) {
    && s in st.held && KeepsLot(ToInsert(st.prepared), s)
    && Balance(st, s) == opening + InsertedQty(ToInsert(st.prepared), s) >= 0.0
  }

  lemma RowRuns(db: Db, cat: Catalog, free: bool, p: int, st: Scan, row: nat, r: CsvRow, s: string, opening: real)
    requires Runs(st, s, opening)
    ensures Runs(ScanRow(db, cat, free, p, st, row, r), s, opening)
  {
    hide ScanRow;
    var st' := ScanRow(db, cat, free, p, st, row, r);
    ScanRowGrows(db, cat, free, p, st, row, r);
    if st'.prepared != st.prepared {
      var q := st'.prepared[|st.prepared|];
      ToInsertSnoc(st.prepared, q);
      InsertedQtySnoc(ToInsert(st.prepared), q, s);
      assert ToInsert(st'.prepared) == if q.duplicate then ToInsert(st.prepared) else ToInsert(st.prepared) + [q];
      assert KeepsLot(ToInsert(st'.prepared), s);
      assert s in st'.held;
      assert !q.duplicate && q.tx.symbol == s ==> Balance(st', s) == Balance(st, s) + Signed(q.tx.dir, q.tx.amount);
      assert q.duplicate || q.tx.symbol != s ==> Balance(st', s) == Balance(st, s);
    }
  }

  lemma {:induction false} RowsRun(
    db: Db, cat: Catalog, free: bool, p: int, st: Scan, rows: seq<CsvRow>, i: nat, s: string, opening: real)
    requires i <= |rows| && Runs(st, s, opening)
    ensures Runs(ScanRows(db, cat, free, p, st, rows, i), s, opening)
    decreases |rows| - i
  {
    hide Runs, ScanRow;
    if i < |rows| {
      RowRuns(db, cat, free, p, st, i + 1, rows[i], s, opening);
      RowsRun(db, cat, free, p, ScanRow(db, cat, free, p, st, i + 1, rows[i]), rows, i + 1, s, opening);
    }
  }

  lemma WrittenBalance(db: Db, p: int, ps: seq<Prepared>, s: string)
    requires HasAsset(db, p, s) && Balanced(db, p, s) && KeepsLot(ps, s)
    ensures var db' := Written(db, p, ps);
            HasAsset(db', p, s) && AssetAt(db', p, s).p.balance == AssetAt(db, p, s).p.balance + InsertedQty(ps, s)
  {
    InsertAllQty(db, p, ps, s);
    WrittenKeeps(db, p, ps);
    var db' := Written(db, p, ps);
    assert Balanced(db', p, s);
  }

  /** Whatever the file holds, a non-negative holding ends non-negative. */
  lemma HoldingEndsNonNegative(db: Db, cat: Catalog, free: bool, p: int, mode: Mode, rows: seq<CsvRow>, s: string)
    requires HasAsset(db, p, s) && Balanced(db, p, s) && AssetAt(db, p, s).p.balance >= 0.0
    ensures var r := BulkCreate(db, cat, free, p, mode, rows);
            r.Ok? ==> HasAsset(r.value.0, p, s) && AssetAt(r.value.0, p, s).p.balance >= 0.0
  {
    var st0 := StartScan(db, p);
    RowsRun(db, cat, free, p, st0, rows, 0, s, AssetAt(db, p, s).p.balance);
    WrittenBalance(db, p, ToInsert(ScanRows(db, cat, free, p, st0, rows, 0).prepared), s);
  }
}
