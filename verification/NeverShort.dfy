/**
  What the entry paths promise about quantities: creating, importing, transferring and opening never
  take a holding below zero, in any order, as long as no history starts below zero.
 */
module NeverShort {
  import opened Recalc
  import opened Ledger
  import opened Bulk
  import opened LedgerRuns
  import opened BulkRefines

  ghost function LotQty(db: Db, p: int, s: string): real {
    if p in db.portfolios && s in db.portfolios[p].assets then db.portfolios[p].assets[s].lot.balance else 0.0
  }

  /** Units by lot and rows, whether or not an asset row exists for them. */
  ghost function Qty(db: Db, p: int, s: string): real { LotQty(db, p, s) + NetQty(EventsOf(db.rows, p, s)) }

  ghost predicate NoShort(db: Db, p: int) { forall s :: Qty(db, p, s) >= 0.0 }

  /** No manual portfolio owes units, not even of a token it does not list. */
  ghost predicate NothingShort(db: Db) {
    forall p :: p in db.portfolios && db.portfolios[p].kind == Manual ==> NoShort(db, p)
  }

  /** The requests that add rows or lots, with the positive amounts their schemas demand. */
  ghost predicate Adds(t: Call) {
    match t.request
    case Create(b, _, _) => b.amount > 0.0
    case Import(_, _, _) => true
    case Move(_, _, _, _, _) => true
    case Open(_, _, _, _) => true
    case _ => false
  }

  lemma ResettledQty(db: Db, targets: set<(int, string)>, totals: set<int>, p: int, s: string)
    ensures Qty(Resettle(db, targets, totals), p, s) == Qty(db, p, s)
    ensures Resettle(db, targets, totals).portfolios.Keys == db.portfolios.Keys
    ensures p in db.portfolios ==> Resettle(db, targets, totals).portfolios[p].kind == db.portfolios[p].kind
  {
    hide NetQty, EventsOf, Project, History;
  }

  function RowQty(r: TxRow, p: int, s: string): real { if Matches(r, p, s) then Signed(r.dir, r.amount) else 0.0 }

  lemma AppendedQty(db: Db, r: TxRow, p: int, s: string)
    ensures Qty(Append(db, r), p, s) == Qty(db, p, s) + RowQty(r, p, s)
  {
    hide EventsOf;
    AppendEvents(db, r, p, s);
    NetAppend(EventsOf(db.rows, p, s), if Matches(r, p, s) then [ToEvent(r.(id := db.nextId))] else []);
  }

  lemma EnsuredQty(db: Db, q: int, t: string, p: int, s: string)
    requires q in db.portfolios
    ensures Qty(EnsureAsset(db, q, t), p, s) == Qty(db, p, s)
  {
    hide NetQty, EventsOf;
  }

  lemma BalanceIsQty(db: Db, p: int, s: string)
    requires HasAsset(db, p, s) && Balanced(db, p, s)
    ensures AssetAt(db, p, s).p.balance == Qty(db, p, s)
  {
    hide NetQty, NetUsd, EventsOf;
  }

  // ---------------------------------------------------------------------------------------------
  // One request at a time
  // ---------------------------------------------------------------------------------------------

  lemma CreatedQty(db: Db, market: real, p: int, b: NewTx, p': int, s: string)
    requires p in db.portfolios
    ensures Qty(Created(db, market, p, b), p', s) == Qty(db, p', s) + RowQty(NewRow(0, p, b, market), p', s)
  {
    hide Qty, Resettle;
    var r := NewRow(0, p, b, market);
    if b.kind == Nft {
      AppendedQty(db, r, p', s);
    } else {
      EnsuredQty(db, p, b.symbol, p', s);
      AppendedQty(EnsureAsset(db, p, b.symbol), r, p', s);
      ResettledQty(Append(EnsureAsset(db, p, b.symbol), r), {(p, b.symbol)}, {p}, p', s);
    }
  }

  lemma CreateNeverShort(db: Db, cat: Catalog, free: bool, market: real, p: int, b: NewTx, p': int, s: string)
    requires p in db.portfolios && b.amount > 0.0 && AllBalanced(db)
    requires Qty(db, p', s) >= 0.0 && CreateTransaction(db, cat, free, market, p, b).Ok?
    ensures Qty(CreateTransaction(db, cat, free, market, p, b).value, p', s) >= 0.0
  {
    hide Created, Qty;
    CreatedQty(db, market, p, b, p', s);
    if b.kind != Nft && b.dir == Sell && b.symbol == s && p == p' {
      assert HasAsset(db, p, s) && Balanced(db, p, s);
      BalanceIsQty(db, p, s);
    }
  }

  lemma MovedQty(db: Db, src: int, dst: int, s: string, amount: real, usd: real, ts: int, g: int, p: int, s': string)
    requires dst in db.portfolios && src != dst
    ensures Qty(Moved(db, src, dst, s, amount, usd, ts, g), p, s') == Qty(db, p, s')
      + (if (p, s') == (src, s) then -amount else if (p, s') == (dst, s) then amount else 0.0)
  {
    hide Qty, Resettle;
    var out, back := Leg(src, s, Sell, amount, usd, ts, g), Leg(dst, s, Buy, amount, usd, ts, g);
    var db0 := EnsureAsset(db, dst, s);
    EnsuredQty(db, dst, s, p, s');
    AppendedQty(db0, out, p, s');
    AppendedQty(Append(db0, out), back, p, s');
    ResettledQty(WithLegs(db, src, dst, s, amount, usd, ts, g), {(src, s), (dst, s)}, {src, dst}, p, s');
  }

  lemma MoveNeverShort(db: Db, cat: Catalog, src: int, dst: int, s: string, amount: real, ts: int, g: int, p: int, s': string)
    requires src in db.portfolios && amount > 0.0 && AllBalanced(db)
    requires Qty(db, p, s') >= 0.0 && CreateTransfer(db, cat, src, dst, s, amount, ts, g).Ok?
    ensures Qty(CreateTransfer(db, cat, src, dst, s, amount, ts, g).value, p, s') >= 0.0
  {
    hide Moved, Qty, CarriedUsd;
    assert HasAsset(db, src, s) && Balanced(db, src, s);
    BalanceIsQty(db, src, s);
    MovedQty(db, src, dst, s, amount, CarriedUsd(amount, db.portfolios[src].assets[s].p), ts, g, p, s');
  }

  lemma OpenNeverShort(db: Db, cat: Catalog, free: bool, p: int, s: string, balance: real, mode: CostMode, p': int, s': string)
    requires p in db.portfolios && Qty(db, p', s') >= 0.0 && AddAsset(db, cat, free, p, s, balance, mode).Ok?
    ensures Qty(AddAsset(db, cat, free, p, s, balance, mode).value, p', s') >= 0.0
  {
    hide NetQty, EventsOf, Resettle, OpeningCost;
    ResettledQty(WithAsset(db, p, s, Asset(Lot(balance, OpeningCost(balance, mode)), ZERO)), {(p, s)}, {p}, p', s');
  }

  // ---------------------------------------------------------------------------------------------
  // A whole file
  // ---------------------------------------------------------------------------------------------

  lemma InsertedRowQty(db: Db, p: int, q: Prepared, p': int, s: string)
    requires p in db.portfolios && (q.createAsset ==> q.tx.symbol !in db.portfolios[p].assets)
    ensures Qty(InsertRow(db, p, q), p', s) == Qty(db, p', s) + RowQty(NewRow(0, p, q.tx, 0.0), p', s)
  {
    hide Qty;
    if q.createAsset {
      EnsuredQty(db, p, q.tx.symbol, p', s);
      AppendedQty(EnsureAsset(db, p, q.tx.symbol), NewRow(0, p, q.tx, 0.0), p', s);
    } else {
      AppendedQty(db, NewRow(0, p, q.tx, 0.0), p', s);
    }
  }

  /** The tables as they would be if the rows prepared so far had been inserted. */
  ghost function Inserted(db: Db, p: int, st: Scan): Db
    requires p in db.portfolios
  {
    InsertAll(db, p, ToInsert(st.prepared))
  }

  /** The pass never believes in more units than the ledger would hold. */
  ghost predicate Cautious(db: Db, p: int, st: Scan)
    requires p in db.portfolios
  {
    var cur := Inserted(db, p, st);
    && p in cur.portfolios && st.held == cur.portfolios[p].assets.Keys
    && (forall s :: s in st.held ==> Balance(st, s) <= Qty(cur, p, s))
    && NoShort(cur, p)
    && forall p', s :: p' != p ==> Qty(cur, p', s) == Qty(db, p', s)
  }

  lemma GrownIsCautious(db: Db, p: int, st: Scan, st': Scan, q: Prepared)
    requires p in db.portfolios && Cautious(db, p, st) && Grows(st, st', q) && !q.duplicate
    ensures Cautious(db, p, st')
  {
    hide Qty, InsertAll, InsertRow, Balance;
    var cur, ins := Inserted(db, p, st), ToInsert(st.prepared);
    ToInsertSnoc(st.prepared, q);
    InsertAllSnoc(db, p, ins, q);
    InsertedAssets(cur, p, q);
    forall p', s ensures Qty(InsertRow(cur, p, q), p', s) == Qty(cur, p', s) + RowQty(NewRow(0, p, q.tx, 0.0), p', s) {
      InsertedRowQty(cur, p, q, p', s);
    }
    assert cur == InsertAll(db, p, ins) && Inserted(db, p, st') == InsertRow(cur, p, q);
  }

  lemma InsertedAssets(cur: Db, p: int, q: Prepared)
    requires p in cur.portfolios && q.createAsset == (q.tx.symbol !in cur.portfolios[p].assets)
    ensures p in InsertRow(cur, p, q).portfolios
    ensures InsertRow(cur, p, q).portfolios[p].assets.Keys == cur.portfolios[p].assets.Keys + {q.tx.symbol}
  {
  }

  lemma RowIsCautious(db: Db, cat: Catalog, free: bool, p: int, st: Scan, row: nat, r: CsvRow)
    requires p in db.portfolios && Cautious(db, p, st)
    ensures Cautious(db, p, ScanRow(db, cat, free, p, st, row, r))
  {
    hide ScanRow, Qty, InsertAll;
    var st' := ScanRow(db, cat, free, p, st, row, r);
    ScanRowGrows(db, cat, free, p, st, row, r);
    if st'.prepared != st.prepared {
      var q := st'.prepared[|st.prepared|];
      if q.duplicate {
        ToInsertSnoc(st.prepared, q);
        assert ToInsert(st'.prepared) == ToInsert(st.prepared);
      } else {
        GrownIsCautious(db, p, st, st', q);
      }
    }
  }

  lemma {:induction false} PassIsCautious(db: Db, cat: Catalog, free: bool, p: int, st: Scan, rows: seq<CsvRow>, i: nat)
    requires p in db.portfolios && i <= |rows| && Cautious(db, p, st)
    ensures Cautious(db, p, ScanRows(db, cat, free, p, st, rows, i))
    decreases |rows| - i
  {
    hide Cautious, ScanRow;
    if i < |rows| {
      RowIsCautious(db, cat, free, p, st, i + 1, rows[i]);
      PassIsCautious(db, cat, free, p, ScanRow(db, cat, free, p, st, i + 1, rows[i]), rows, i + 1);
    }
  }

  lemma StartIsCautious(db: Db, p: int)
    requires p in db.portfolios && db.portfolios[p].kind == Manual && AllBalanced(db) && NoShort(db, p)
    ensures Cautious(db, p, StartScan(db, p))
  {
    hide Qty;
    var st := StartScan(db, p);
    assert Inserted(db, p, st) == db;
    forall s | s in st.held ensures Balance(st, s) <= Qty(db, p, s) {
      assert HasAsset(db, p, s) && Balanced(db, p, s);
      BalanceIsQty(db, p, s);
    }
  }

  lemma ImportNeverShort(db: Db, cat: Catalog, free: bool, p: int, mode: Mode, lines: seq<CsvRow>, p': int, s: string)
    requires p in db.portfolios && db.portfolios[p].kind == Manual && AllBalanced(db) && NoShort(db, p)
    requires Qty(db, p', s) >= 0.0 && BulkCreate(db, cat, free, p, mode, lines).Ok?
    ensures Qty(BulkCreate(db, cat, free, p, mode, lines).value.0, p', s) >= 0.0
  {
    hide Qty, Resettle, ScanRows, InsertAll;
    var st := ScanRows(db, cat, free, p, StartScan(db, p), lines, 0);
    StartIsCautious(db, p);
    PassIsCautious(db, cat, free, p, StartScan(db, p), lines, 0);
    var ins := ToInsert(st.prepared);
    ResettledQty(InsertAll(db, p, ins), Touched(p, ins), {p}, p', s);
  }

  // ---------------------------------------------------------------------------------------------
  // Any run
  // ---------------------------------------------------------------------------------------------

  ghost predicate SameKinds(db: Db, db': Db) {
    && db'.portfolios.Keys == db.portfolios.Keys
    && forall p :: p in db.portfolios ==> db'.portfolios[p].kind == db.portfolios[p].kind
  }

  lemma ResettledKinds(db: Db, targets: set<(int, string)>, totals: set<int>)
    ensures SameKinds(db, Resettle(db, targets, totals))
  {
  }

  lemma {:induction false} InsertedKinds(db: Db, p: int, ps: seq<Prepared>)
    requires p in db.portfolios
    ensures SameKinds(db, InsertAll(db, p, ps))
    decreases ps
  {
    if ps != [] {
      InsertedKinds(InsertRow(db, p, ps[0]), p, ps[1..]);
    }
  }

  lemma ApplyKeepsKinds(db: Db, cat: Catalog, t: Call)
    requires Adds(t)
    ensures SameKinds(db, Apply(db, cat, t))
  {
    hide Resettle;
    if t.p in db.portfolios && Outcome(db, cat, t).Some? {
      match t.request
      case Create(b, _, market) =>
        ResettledKinds(Append(EnsureAsset(db, t.p, b.symbol), NewRow(0, t.p, b, market)), {(t.p, b.symbol)}, {t.p});
      case Import(_, lines, free) =>
        var ins := ToInsert(ScanRows(db, cat, free, t.p, StartScan(db, t.p), lines, 0).prepared);
        InsertedKinds(db, t.p, ins);
        ResettledKinds(InsertAll(db, t.p, ins), Touched(t.p, ins), {t.p});
      case Move(dst, s, amount, ts, g) =>
        var usd := CarriedUsd(amount, db.portfolios[t.p].assets[s].p);
        ResettledKinds(WithLegs(db, t.p, dst, s, amount, usd, ts, g), {(t.p, s), (dst, s)}, {t.p, dst});
      case Open(s, balance, mode, _) =>
        ResettledKinds(WithAsset(db, t.p, s, Asset(Lot(balance, OpeningCost(balance, mode)), ZERO)), {(t.p, s)}, {t.p});
    }
  }

  lemma ApplyQty(db: Db, cat: Catalog, t: Call, p: int, s: string)
    requires Adds(t) && AllBalanced(db) && NothingShort(db) && Qty(db, p, s) >= 0.0
    ensures Qty(Apply(db, cat, t), p, s) >= 0.0
  {
    hide Qty, CreateTransaction, CreateTransfer, AddAsset, BulkCreate;
    if t.p in db.portfolios && Outcome(db, cat, t).Some? {
      match t.request
      case Create(b, free, market) => CreateNeverShort(db, cat, free, market, t.p, b, p, s);
      case Import(mode, lines, free) =>
        ImportIsManual(db, cat, free, t.p, mode, lines);
        assert NoShort(db, t.p);
        ImportNeverShort(db, cat, free, t.p, mode, lines, p, s);
      case Move(dst, sym, amount, ts, g) => MoveNeverShort(db, cat, t.p, dst, sym, amount, ts, g, p, s);
      case Open(sym, balance, mode, free) => OpenNeverShort(db, cat, free, t.p, sym, balance, mode, p, s);
    }
  }

  lemma ImportIsManual(db: Db, cat: Catalog, free: bool, p: int, mode: Mode, lines: seq<CsvRow>)
    requires p in db.portfolios && BulkCreate(db, cat, free, p, mode, lines).Ok?
    ensures db.portfolios[p].kind == Manual
  {
  }

  lemma ApplyNeverShort(db: Db, cat: Catalog, t: Call)
    requires Adds(t) && AllBalanced(db) && NothingShort(db)
    ensures NothingShort(Apply(db, cat, t)) && AllBalanced(Apply(db, cat, t))
  {
    hide Apply, Qty, Balanced;
    ApplyKeeps(db, cat, t);
    ApplyKeepsKinds(db, cat, t);
    var after := Apply(db, cat, t);
    forall p, s | p in db.portfolios && db.portfolios[p].kind == Manual ensures Qty(after, p, s) >= 0.0 {
      assert NoShort(db, p);
      ApplyQty(db, cat, t, p, s);
    }
    assert SameKinds(db, after);
  }

  /**
    Over every run of creates, imports, transfers and openings, in any order, no stored balance of a
    manual portfolio goes below zero: the sell guards and the import's running balance are enough.
   */
  lemma {:induction false} RunNeverShort(db: Db, cat: Catalog, ts: seq<Call>)
    requires AllBalanced(db) && NothingShort(db) && forall t :: t in ts ==> Adds(t)
    ensures NothingShort(Run(db, cat, ts))
    ensures forall p, s :: HasAsset(Run(db, cat, ts), p, s) ==> AssetAt(Run(db, cat, ts), p, s).p.balance >= 0.0
    decreases ts
  {
    hide Apply, Adds, NothingShort, AllBalanced;
    if ts == [] {
      StoredIsNonNegative(db);
    } else {
      ApplyNeverShort(db, cat, ts[0]);
      RunNeverShort(Apply(db, cat, ts[0]), cat, ts[1..]);
    }
  }

  lemma StoredIsNonNegative(db: Db)
    requires AllBalanced(db) && NothingShort(db)
    ensures forall p, s :: HasAsset(db, p, s) ==> AssetAt(db, p, s).p.balance >= 0.0
  {
    hide Qty;
    forall p, s | HasAsset(db, p, s) ensures AssetAt(db, p, s).p.balance >= 0.0 {
      assert Balanced(db, p, s) && NoShort(db, p);
      BalanceIsQty(db, p, s);
    }
  }
}
