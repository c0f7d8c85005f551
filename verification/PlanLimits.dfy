/** A free plan never brings in a token outside the top ten that the user does not hold somewhere already. */
module PlanLimits {
  import opened Options
  import opened Recalc
  import opened Ledger
  import opened Bulk
  import opened LedgerRuns

  predicate TopTen(cat: Catalog, s: string) { s in cat && cat[s].Some? && cat[s].value <= 10 }

  /** Every listed asset is one of these tokens. */
  ghost predicate Within(db: Db, tokens: string -> bool) {
    forall p, s :: p in db.portfolios && s in db.portfolios[p].assets ==> tokens(s)
  }

  lemma ResettledWithin(db: Db, targets: set<(int, string)>, totals: set<int>, tokens: string -> bool)
    ensures Within(Resettle(db, targets, totals), tokens) <==> Within(db, tokens)
  {
    hide Project, History;
    var r := Resettle(db, targets, totals);
    forall p | p in db.portfolios ensures r.portfolios[p].assets.Keys == db.portfolios[p].assets.Keys {
      assert r.portfolios[p].assets == ResettledAssets(db, p, targets);
    }
    forall p, s | p in db.portfolios ensures s in r.portfolios[p].assets <==> s in db.portfolios[p].assets {
      assert s in r.portfolios[p].assets.Keys <==> s in db.portfolios[p].assets.Keys;
    }
  }

  ghost predicate NewOnesWithin(ps: seq<Prepared>, tokens: string -> bool) {
    forall q :: q in ps && q.createAsset ==> tokens(q.tx.symbol)
  }

  lemma {:induction false} ScanWithin(
    db: Db, cat: Catalog, p: int, st: Scan, rows: seq<CsvRow>, i: nat, tokens: string -> bool)
    requires i <= |rows| && NewOnesWithin(st.prepared, tokens) && forall s :: TopTen(cat, s) ==> tokens(s)
    ensures NewOnesWithin(ScanRows(db, cat, true, p, st, rows, i).prepared, tokens)
    decreases |rows| - i
  {
    hide HashTaken, CellErrors;
    if i < |rows| {
      ScanWithin(db, cat, p, ScanRow(db, cat, true, p, st, i + 1, rows[i]), rows, i + 1, tokens);
    }
  }

  lemma {:induction false} InsertsWithin(ps: seq<Prepared>, tokens: string -> bool)
    requires NewOnesWithin(ps, tokens)
    ensures NewOnesWithin(ToInsert(ps), tokens)
  {
    if ps != [] {
      assert forall q :: q in ps[1..] ==> q in ps;
      assert ps[0] in ps;
      InsertsWithin(ps[1..], tokens);
    }
  }

  lemma {:induction false} InsertAllWithin(db: Db, p: int, ps: seq<Prepared>, tokens: string -> bool)
    requires p in db.portfolios && Within(db, tokens) && NewOnesWithin(ps, tokens)
    ensures Within(InsertAll(db, p, ps), tokens)
    decreases ps
  {
    if ps != [] {
      assert ps[0] in ps && forall q :: q in ps[1..] ==> q in ps;
      InsertAllWithin(InsertRow(db, p, ps[0]), p, ps[1..], tokens);
    }
  }

  /** Requests as a user on the free plan sends them. */
  predicate OnFreePlan(t: Call) {
    match t.request
    case Create(_, free, _) => free
    case Import(_, _, free) => free
    case Open(_, _, _, free) => free
    case _ => true
  }

  lemma CreateWithin(db: Db, cat: Catalog, market: real, p: int, b: NewTx, tokens: string -> bool)
    requires p in db.portfolios && CreateTransaction(db, cat, true, market, p, b).Ok?
    requires Within(db, tokens) && forall s :: TopTen(cat, s) ==> tokens(s)
    ensures Within(CreateTransaction(db, cat, true, market, p, b).value, tokens)
  {
    hide HashTaken, Resettle;
    if b.kind != Nft {
      var mid := Append(EnsureAsset(db, p, b.symbol), NewRow(0, p, b, market));
      assert Within(mid, tokens);
      ResettledWithin(mid, {(p, b.symbol)}, {p}, tokens);
    }
  }

  lemma ImportWithin(db: Db, cat: Catalog, p: int, mode: Mode, rows: seq<CsvRow>, tokens: string -> bool)
    requires p in db.portfolios && BulkCreate(db, cat, true, p, mode, rows).Ok?
    requires Within(db, tokens) && forall s :: TopTen(cat, s) ==> tokens(s)
    ensures Within(BulkCreate(db, cat, true, p, mode, rows).value.0, tokens)
  {
    hide ScanRows, Resettle, Within;
    var st0 := StartScan(db, p);
    ScanWithin(db, cat, p, st0, rows, 0, tokens);
    var st := ScanRows(db, cat, true, p, st0, rows, 0);
    InsertsWithin(st.prepared, tokens);
    var ins := ToInsert(st.prepared);
    InsertAllWithin(db, p, ins, tokens);
    ResettledWithin(InsertAll(db, p, ins), Touched(p, ins), {p}, tokens);
  }

  lemma DeleteWithin(db: Db, p: int, id: int, tokens: string -> bool)
    requires p in db.portfolios && DeleteTransaction(db, p, id).Ok? && Within(db, tokens)
    ensures Within(DeleteTransaction(db, p, id).value, tokens)
  {
    hide Resettle;
    var i := IndexOf(db.rows, id);
    var r := db.rows[i];
    match r.group
    case Some(g) =>
      ResettledWithin(db.(rows := WithoutGroup(db.rows, g)), GroupTargets(db.rows, g), GroupPortfolios(db.rows, g), tokens);
    case None =>
      ResettledWithin(db.(rows := db.rows[..i] + db.rows[i+1..]), {(p, r.symbol)}, {p}, tokens);
  }

  lemma UpdateWithin(db: Db, cat: Catalog, market: real, p: int, id: int, b: Patch, tokens: string -> bool)
    requires p in db.portfolios && UpdateTransaction(db, cat, market, p, id, b).Ok? && Within(db, tokens)
    ensures Within(UpdateTransaction(db, cat, market, p, id, b).value, tokens)
  {
    hide Resettle, PatchedRow;
    var i := IndexOf(db.rows, id);
    var now := PatchedRow(db.rows[i], b, market);
    ResettledWithin(db.(rows := db.rows[i := now]), {(p, db.rows[i].symbol), (p, now.symbol)}, {p}, tokens);
  }

  /** A transfer takes a token to another portfolio without asking the plan. */
  lemma MoveWithin(db: Db, cat: Catalog, src: int, dst: int, s: string, amount: real, ts: int, g: int, tokens: string -> bool)
    requires src in db.portfolios && amount > 0.0 && CreateTransfer(db, cat, src, dst, s, amount, ts, g).Ok? && Within(db, tokens)
    ensures Within(CreateTransfer(db, cat, src, dst, s, amount, ts, g).value, tokens)
  {
    hide Resettle, CarriedUsd;
    var mid := WithLegs(db, src, dst, s, amount, CarriedUsd(amount, db.portfolios[src].assets[s].p), ts, g);
    assert Within(mid, tokens);
    ResettledWithin(mid, {(src, s), (dst, s)}, {src, dst}, tokens);
  }

  lemma AssetRequestWithin(db: Db, cat: Catalog, t: Call, tokens: string -> bool)
    requires t.p in db.portfolios && (t.request.Open? || t.request.Edit? || t.request.Remove?) && OnFreePlan(t)
    requires Within(db, tokens) && forall s :: TopTen(cat, s) ==> tokens(s)
    ensures Within(Apply(db, cat, t), tokens)
  {
    hide Resettle, EditedLot;
    match t.request
    case Open(s, balance, mode, free) =>
      ResettledWithin(WithAsset(db, t.p, s, Asset(Lot(balance, OpeningCost(balance, mode)), ZERO)), {(t.p, s)}, {t.p}, tokens);
    case Edit(s, balance, mode) =>
      if s in db.portfolios[t.p].assets {
        var a := db.portfolios[t.p].assets[s];
        var edited := a.(lot := EditedLot(a.lot, balance.GetOr(a.lot.balance), mode));
        ResettledWithin(WithAsset(db, t.p, s, edited), {(t.p, s)}, {t.p}, tokens);
      }
    case Remove(s) =>
      var rest := db.portfolios[t.p].assets - {s};
      ResettledWithin(db.(portfolios := db.portfolios[t.p := db.portfolios[t.p].(assets := rest)]), {}, {t.p}, tokens);
  }

  lemma ApplyWithin(db: Db, cat: Catalog, t: Call, tokens: string -> bool)
    requires Within(db, tokens) && OnFreePlan(t) && forall s :: TopTen(cat, s) ==> tokens(s)
    ensures Within(Apply(db, cat, t), tokens)
  {
    hide Within, CreateTransaction, UpdateTransaction, DeleteTransaction, BulkCreate, CreateTransfer, TopTen;
    if t.p in db.portfolios && Outcome(db, cat, t).Some? {
      match t.request
      case Create(b, free, market) => CreateWithin(db, cat, market, t.p, b, tokens);
      case Update(id, patch, market) => UpdateWithin(db, cat, market, t.p, id, patch, tokens);
      case Delete(id) => DeleteWithin(db, t.p, id, tokens);
      case Import(mode, lines, free) => ImportWithin(db, cat, t.p, mode, lines, tokens);
      case Move(dst, s, amount, ts, g) => MoveWithin(db, cat, t.p, dst, s, amount, ts, g, tokens);
      case _ => AssetRequestWithin(db, cat, t, tokens);
    }
  }

  lemma {:induction false} RunWithin(db: Db, cat: Catalog, ts: seq<Call>, tokens: string -> bool)
    requires Within(db, tokens) && (forall t :: t in ts ==> OnFreePlan(t)) && forall s :: TopTen(cat, s) ==> tokens(s)
    ensures Within(Run(db, cat, ts), tokens)
    decreases ts
  {
    hide Within, Apply, OnFreePlan, TopTen;
    if ts != [] {
      ApplyWithin(db, cat, ts[0], tokens);
      RunWithin(Apply(db, cat, ts[0]), cat, ts[1..], tokens);
    }
  }

  ghost predicate HeldSomewhere(db: Db, s: string) { exists p :: p in db.portfolios && s in db.portfolios[p].assets }

  /** Whatever a free user sends, every token held afterwards is in the top ten or was held somewhere before. */
  lemma FreePlanStaysInTopTen(db: Db, cat: Catalog, ts: seq<Call>, p: int, s: string)
    requires forall t :: t in ts ==> OnFreePlan(t)
    requires p in Run(db, cat, ts).portfolios && s in Run(db, cat, ts).portfolios[p].assets
    ensures TopTen(cat, s) || HeldSomewhere(db, s)
  {
    hide Run, OnFreePlan;
    var listed := set q, x | q in db.portfolios && x in db.portfolios[q].assets :: x;
    var tokens := (x: string) => x in listed || (x in cat && cat[x].Some? && cat[x].value <= 10);
    RunWithin(db, cat, ts, tokens);
    assert tokens(s);
    if s in listed {
      var q :| q in db.portfolios && s in db.portfolios[q].assets;
      assert HeldSomewhere(db, s);
    }
  }
}
