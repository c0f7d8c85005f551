/**
  What every run of requests on manual portfolios keeps: balances and net deposits are opening plus
  buys minus sells, projections are the chronological fold, and portfolio totals are sums.
 */
module LedgerRuns {
  import opened Options
  import opened Recalc
  import opened Ledger
  import opened Bulk

  /** A request preserves, holding by holding and portfolio by portfolio, whatever was consistent. */
  ghost predicate Keeps(db: Db, db': Db) {
    && (forall p, s :: Settled(db, p, s) ==> Settled(db', p, s))
    && KeepsBalances(db, db')
  }

  ghost predicate KeepsBalances(db: Db, db': Db) {
    && (forall p, s :: Balanced(db, p, s) ==> Balanced(db', p, s))
    && (forall p :: TotalOk(db, p) ==> TotalOk(db', p))
  }

  /** `mid` differs from `db` only inside `targets`, whose portfolios are in `totals`. */
  ghost predicate Touches(db: Db, mid: Db, targets: set<(int, string)>, totals: set<int>) {
    && (forall p, s :: HasAsset(mid, p, s) && (p, s) !in targets ==> Unmoved(db, mid, p, s))
    && (forall p :: p in mid.portfolios && p !in totals ==> p in db.portfolios && mid.portfolios[p] == db.portfolios[p])
    && (forall t :: t in targets ==> t.0 in totals)
  }

  ghost predicate Unmoved(db: Db, mid: Db, p: int, s: string)
    requires HasAsset(mid, p, s)
  {
    && HasAsset(db, p, s) && AssetAt(mid, p, s) == AssetAt(db, p, s)
    && EventsOf(mid.rows, p, s) == EventsOf(db.rows, p, s)
  }

  lemma TouchedIsKept(db: Db, mid: Db, targets: set<(int, string)>, totals: set<int>)
    requires Touches(db, mid, targets, totals)
    ensures Keeps(db, Resettle(mid, targets, totals))
  {
    var db' := Resettle(mid, targets, totals);
    forall p, s
      ensures Settled(db, p, s) ==> Settled(db', p, s)
      ensures Balanced(db, p, s) ==> Balanced(db', p, s)
    {
      if HasAsset(db', p, s) {
        assert HasAsset(mid, p, s);
        if (p, s) in targets {
          SettledIsBalanced(db', p, s);
        } else {
          assert Unmoved(db, mid, p, s);
        }
      }
    }
    forall p | TotalOk(db, p) ensures TotalOk(db', p) {
      if p in mid.portfolios && p !in totals {
        assert ResettledAssets(mid, p, targets) == mid.portfolios[p].assets;
      }
    }
  }

  lemma AppendEvents(db: Db, r: TxRow, p: int, s: string)
    ensures EventsOf(Append(db, r).rows, p, s)
         == EventsOf(db.rows, p, s) + (if Matches(r, p, s) then [ToEvent(r.(id := db.nextId))] else [])
  {
    EventsConcat(db.rows, [r.(id := db.nextId)], p, s);
  }

  lemma CreatedKeeps(db: Db, market: real, p: int, b: NewTx)
    requires p in db.portfolios
    ensures Keeps(db, Created(db, market, p, b))
  {
    var r := NewRow(0, p, b, market);
    if b.kind == Nft {
      forall p', s ensures EventsOf(Append(db, r).rows, p', s) == EventsOf(db.rows, p', s) {
        AppendEvents(db, r, p', s);
      }
    } else {
      var mid := Append(EnsureAsset(db, p, b.symbol), r);
      forall p', s | HasAsset(mid, p', s) && (p', s) !in {(p, b.symbol)} ensures Unmoved(db, mid, p', s) {
        AppendEvents(EnsureAsset(db, p, b.symbol), r, p', s);
      }
      TouchedIsKept(db, mid, {(p, b.symbol)}, {p});
    }
  }

  /** A patch that moves a row in time and skips the recalculation. */
  predicate Retiming(b: Patch) { SkipsRecalc(b) && b.ts.Some? }

  /** Net quantity and net dollars ignore the time of a row. */
  lemma RetimedNets(r: TxRow, r': TxRow, p: int, s: string)
    requires r' == r.(ts := r'.ts)
    ensures NetQty(EventsOf([r'], p, s)) == NetQty(EventsOf([r], p, s))
    ensures NetUsd(EventsOf([r'], p, s)) == NetUsd(EventsOf([r], p, s))
  {
    assert forall x: TxRow :: EventsOf([x], p, s) == if Matches(x, p, s) then [ToEvent(x)] else [];
  }

  /** Replacing a row moves only the histories it matches; retiming it moves no sums. */
  lemma ReplacedEvents(rows: seq<TxRow>, i: nat, now: TxRow, p: int, s: string)
    requires i < |rows|
    ensures !Matches(rows[i], p, s) && !Matches(now, p, s) ==> EventsOf(rows[i := now], p, s) == EventsOf(rows, p, s)
    ensures now == rows[i].(ts := now.ts) ==>
      NetQty(EventsOf(rows[i := now], p, s)) == NetQty(EventsOf(rows, p, s)) &&
      NetUsd(EventsOf(rows[i := now], p, s)) == NetUsd(EventsOf(rows, p, s))
  {
    var was := rows[i];
    EventsSplit(rows, i, p, s);
    EventsUpdate(rows, i, now, p, s);
    if now == was.(ts := now.ts) {
      var xs, ys := EventsOf(rows[..i], p, s), EventsOf(rows[i+1..], p, s);
      RetimedNets(was, now, p, s);
      NetAppend(xs + EventsOf([was], p, s), ys);
      NetAppend(xs, EventsOf([was], p, s));
      NetAppend(xs + EventsOf([now], p, s), ys);
      NetAppend(xs, EventsOf([now], p, s));
    }
  }

  lemma UpdateKeeps(db: Db, cat: Catalog, market: real, p: int, id: int, b: Patch)
    requires p in db.portfolios
    ensures var r := UpdateTransaction(db, cat, market, p, id, b);
            r.Ok? ==> KeepsBalances(db, r.value) && (!Retiming(b) ==> Keeps(db, r.value))
  {
    hide EventsOf, NetQty, NetUsd, Resettle, Project, Sort;
    var i := IndexOf(db.rows, id);
    if UpdateTransaction(db, cat, market, p, id, b).Ok? {
      var was := db.rows[i];
      var now := PatchedRow(was, b, market);
      var mid := db.(rows := db.rows[i := now]);
      forall p', s
        ensures !Matches(was, p', s) && !Matches(now, p', s) ==> EventsOf(mid.rows, p', s) == EventsOf(db.rows, p', s)
        ensures SkipsRecalc(b) ==> NetQty(EventsOf(mid.rows, p', s)) == NetQty(EventsOf(db.rows, p', s))
        ensures SkipsRecalc(b) ==> NetUsd(EventsOf(mid.rows, p', s)) == NetUsd(EventsOf(db.rows, p', s))
      {
        ReplacedEvents(db.rows, i, now, p', s);
      }
      if SkipsRecalc(b) && b.ts.None? {
        assert now == was && mid.rows == db.rows;
      } else if !SkipsRecalc(b) && was.kind != Nft {
        TouchedIsKept(db, mid, {(p, was.symbol), (p, now.symbol)}, {p});
      }
    }
  }

  lemma GroupDeletedTouches(db: Db, g: int)
    ensures Touches(db, db.(rows := WithoutGroup(db.rows, g)), GroupTargets(db.rows, g), GroupPortfolios(db.rows, g))
  {
    var mid := db.(rows := WithoutGroup(db.rows, g));
    var targets := GroupTargets(db.rows, g);
    forall p, s | HasAsset(mid, p, s) && (p, s) !in targets ensures Unmoved(db, mid, p, s) {
      forall r | r in db.rows && r.group == Some(g) ensures !Matches(r, p, s) {
        assert Matches(r, p, s) ==> (r.portfolio, r.symbol) in targets;
      }
      EventsWithoutGroup(db.rows, g, p, s);
    }
  }

  lemma DeleteKeeps(db: Db, p: int, id: int)
    requires p in db.portfolios
    ensures var r := DeleteTransaction(db, p, id); r.Ok? ==> Keeps(db, r.value)
  {
    hide EventsOf, NetQty, NetUsd, Resettle, Project, Sort, Touches, WithoutGroup, GroupTargets, GroupPortfolios;
    var i := IndexOf(db.rows, id);
    if DeleteTransaction(db, p, id).Ok? {
      var r := db.rows[i];
      match r.group {
        case Some(g) =>
          GroupDeletedTouches(db, g);
          TouchedIsKept(db, db.(rows := WithoutGroup(db.rows, g)), GroupTargets(db.rows, g), GroupPortfolios(db.rows, g));
        case None =>
          var mid := db.(rows := db.rows[..i] + db.rows[i+1..]);
          RowDeletedTouches(db, p, i);
          if r.kind != Nft {
            TouchedIsKept(db, mid, {(p, r.symbol)}, {p});
          }
      }
    }
  }

  lemma RowDeletedTouches(db: Db, p: int, i: nat)
    requires i < |db.rows| && db.rows[i].portfolio == p
    ensures var mid := db.(rows := db.rows[..i] + db.rows[i+1..]);
            && Touches(db, mid, {(p, db.rows[i].symbol)}, {p})
            && (db.rows[i].kind == Nft ==> forall p', s :: EventsOf(mid.rows, p', s) == EventsOf(db.rows, p', s))
  {
    var mid := db.(rows := db.rows[..i] + db.rows[i+1..]);
    forall p', s | !Matches(db.rows[i], p', s) ensures EventsOf(mid.rows, p', s) == EventsOf(db.rows, p', s) {
      EventsSplit(db.rows, i, p', s);
      EventsRemove(db.rows, i, p', s);
    }
  }

  lemma LegEvents(db: Db, src: int, dst: int, s: string, amount: real, usd: real, ts: int, g: int, p': int, s': string)
    requires dst in db.portfolios && src != dst
    ensures var db' := WithLegs(db, src, dst, s, amount, usd, ts, g);
            EventsOf(db'.rows, p', s') == EventsOf(db.rows, p', s')
              + (if (p', s') == (src, s) then [Event(Sell, amount, usd, true, ts, db.nextId)]
                 else if (p', s') == (dst, s) then [Event(Buy, amount, usd, true, ts, db.nextId + 1)] else [])
  {
    var out, back := Leg(src, s, Sell, amount, usd, ts, g), Leg(dst, s, Buy, amount, usd, ts, g);
    var db0 := EnsureAsset(db, dst, s);
    AppendEvents(db0, out, p', s');
    AppendEvents(Append(db0, out), back, p', s');
  }

  lemma LegsTouch(db: Db, src: int, dst: int, s: string, amount: real, usd: real, ts: int, g: int)
    requires dst in db.portfolios && src != dst
    ensures Touches(db, WithLegs(db, src, dst, s, amount, usd, ts, g), {(src, s), (dst, s)}, {src, dst})
  {
    var mid := WithLegs(db, src, dst, s, amount, usd, ts, g);
    forall p', s' | HasAsset(mid, p', s') && (p', s') !in {(src, s), (dst, s)} ensures Unmoved(db, mid, p', s') {
      LegEvents(db, src, dst, s, amount, usd, ts, g, p', s');
    }
  }

  lemma MovedKeeps(db: Db, src: int, dst: int, s: string, amount: real, usd: real, ts: int, g: int)
    requires dst in db.portfolios && src != dst
    ensures Keeps(db, Moved(db, src, dst, s, amount, usd, ts, g))
  {
    LegsTouch(db, src, dst, s, amount, usd, ts, g);
    TouchedIsKept(db, WithLegs(db, src, dst, s, amount, usd, ts, g), {(src, s), (dst, s)}, {src, dst});
  }

  lemma TransferKeeps(db: Db, cat: Catalog, src: int, dst: int, s: string, amount: real, ts: int, g: int)
    requires src in db.portfolios && amount > 0.0
    ensures var r := CreateTransfer(db, cat, src, dst, s, amount, ts, g); r.Ok? ==> Keeps(db, r.value)
  {
    if CreateTransfer(db, cat, src, dst, s, amount, ts, g).Ok? {
      MovedKeeps(db, src, dst, s, amount, CarriedUsd(amount, db.portfolios[src].assets[s].p), ts, g);
    }
  }

  lemma AddAssetKeeps(db: Db, cat: Catalog, free: bool, p: int, s: string, balance: real, mode: CostMode)
    requires p in db.portfolios
    ensures var r := AddAsset(db, cat, free, p, s, balance, mode); r.Ok? ==> Keeps(db, r.value)
  {
    TouchedIsKept(db, WithAsset(db, p, s, Asset(Lot(balance, OpeningCost(balance, mode)), ZERO)), {(p, s)}, {p});
  }

  lemma EditOpeningKeeps(db: Db, p: int, s: string, balance: Option<real>, mode: Option<CostMode>)
    requires p in db.portfolios
    ensures var r := EditOpening(db, p, s, balance, mode); r.Ok? ==> Keeps(db, r.value)
  {
    if s in db.portfolios[p].assets {
      var a := db.portfolios[p].assets[s];
      var b := balance.GetOr(a.lot.balance);
      TouchedIsKept(db, WithAsset(db, p, s, a.(lot := EditedLot(a.lot, b, mode))), {(p, s)}, {p});
    }
  }

  lemma RemoveAssetKeeps(db: Db, p: int, s: string)
    requires p in db.portfolios
    ensures var r := RemoveAsset(db, p, s); r.Ok? ==> Keeps(db, r.value)
  {
    var rest := db.portfolios[p].assets - {s};
    TouchedIsKept(db, db.(portfolios := db.portfolios[p := db.portfolios[p].(assets := rest)]), {}, {p});
  }

  /** A batch of rows changes nothing but the assets it names. */
  lemma {:induction false} InsertAllFrame(db: Db, p: int, ps: seq<Prepared>, p': int, s: string)
    requires p in db.portfolios && (p', s) !in Touched(p, ps)
    ensures var raw := InsertAll(db, p, ps);
            && EventsOf(raw.rows, p', s) == EventsOf(db.rows, p', s)
            && HasAsset(raw, p', s) == HasAsset(db, p', s)
            && (HasAsset(raw, p', s) ==> AssetAt(raw, p', s) == AssetAt(db, p', s))
            && (p' != p && p' in db.portfolios ==> raw.portfolios[p'] == db.portfolios[p'])
    decreases ps
  {
    if ps != [] {
      var q, db1 := ps[0], InsertRow(db, p, ps[0]);
      assert (p, q.tx.symbol) in Touched(p, ps);
      assert Touched(p, ps[1..]) <= Touched(p, ps);
      var db0 := if q.createAsset then WithAsset(db, p, q.tx.symbol, EMPTY_ASSET) else db;
      AppendEvents(db0, NewRow(0, p, q.tx, 0.0), p', s);
      InsertAllFrame(db1, p, ps[1..], p', s);
    }
  }

  lemma WrittenKeeps(db: Db, p: int, ps: seq<Prepared>)
    requires p in db.portfolios
    ensures Keeps(db, Written(db, p, ps))
  {
    if ps != [] {
      var mid := InsertAll(db, p, ps);
      forall p', s | HasAsset(mid, p', s) && (p', s) !in Touched(p, ps) ensures Unmoved(db, mid, p', s) {
        InsertAllFrame(db, p, ps, p', s);
      }
      forall p' | p' in mid.portfolios && p' != p ensures mid.portfolios[p'] == db.portfolios[p'] {
        InsertAllFrame(db, p, ps, p', "");
      }
      TouchedIsKept(db, mid, Touched(p, ps), {p});
    }
  }

  // ---------------------------------------------------------------------------------------------
  // Runs
  // ---------------------------------------------------------------------------------------------

  /** Every writer of a manual portfolio's ledger, except an asset patch that sets netDeposit alone. */
  datatype Request =
    | Create(b: NewTx, free: bool, market: real)
    | Update(id: int, patch: Patch, market: real)
    | Delete(id: int)
    | Import(mode: Mode, lines: seq<CsvRow>, free: bool)
    | Move(dst: int, s: string, amount: real, ts: int, g: int)
    | Open(s: string, balance: real, cost: CostMode, free: bool)
    | Edit(s: string, newBalance: Option<real>, newCost: Option<CostMode>)
    | Remove(s: string)

  datatype Call = Call(p: int, request: Request)

  ghost function Outcome(db: Db, cat: Catalog, t: Call): Option<Db> {
    if t.p !in db.portfolios then None
    else
      match t.request
      case Create(b, free, market) => Success(CreateTransaction(db, cat, free, market, t.p, b))
      case Update(id, patch, market) => Success(UpdateTransaction(db, cat, market, t.p, id, patch))
      case Delete(id) => Success(DeleteTransaction(db, t.p, id))
      case Import(mode, lines, free) =>
        (match BulkCreate(db, cat, free, t.p, mode, lines) case Ok(r) => Some(r.0) case Err(_) => None)
      case Move(dst, s, amount, ts, g) =>
        if amount <= 0.0 then None else Success(CreateTransfer(db, cat, t.p, dst, s, amount, ts, g))
      case Open(s, balance, mode, free) => Success(AddAsset(db, cat, free, t.p, s, balance, mode))
      case Edit(s, balance, mode) => Success(EditOpening(db, t.p, s, balance, mode))
      case Remove(s) => Success(RemoveAsset(db, t.p, s))
  }

  function Success(r: Result<Db, LedgerError>): Option<Db> {
    match r case Ok(db) => Some(db) case Err(_) => None
  }

  /** A refused request leaves the tables alone. */
  ghost function Apply(db: Db, cat: Catalog, t: Call): Db { Outcome(db, cat, t).GetOr(db) }

  ghost function Run(db: Db, cat: Catalog, ts: seq<Call>): Db
    decreases ts
  {
    if ts == [] then db else Run(Apply(db, cat, ts[0]), cat, ts[1..])
  }

  predicate Retimes(t: Call) { t.request.Update? && Retiming(t.request.patch) }

  lemma NothingKeeps(db: Db)
    ensures Keeps(db, db)
  {
  }

  lemma KeepsHasBalances(db: Db, db': Db)
    ensures Keeps(db, db') ==> KeepsBalances(db, db')
  {
  }

  lemma ApplyKeeps(db: Db, cat: Catalog, t: Call)
    ensures KeepsBalances(db, Apply(db, cat, t))
    ensures !Retimes(t) ==> Keeps(db, Apply(db, cat, t))
  {
    hide Keeps, KeepsBalances, Resettle, PatchedRow, CarriedUsd, Written, Created, Moved;
    NothingKeeps(db);
    KeepsHasBalances(db, Apply(db, cat, t));
    if t.p in db.portfolios {
      match t.request
      case Create(b, free, market) => CreatedKeeps(db, market, t.p, b);
      case Update(id, patch, market) => UpdateKeeps(db, cat, market, t.p, id, patch);
      case Delete(id) => DeleteKeeps(db, t.p, id);
      case Import(mode, lines, free) =>
        if BulkCreate(db, cat, free, t.p, mode, lines).Ok? {
          WrittenKeeps(db, t.p, ToInsert(ScanRows(db, cat, free, t.p, StartScan(db, t.p), lines, 0).prepared));
        }
      case Move(dst, s, amount, ts, g) =>
        if amount > 0.0 {
          TransferKeeps(db, cat, t.p, dst, s, amount, ts, g);
        }
      case Open(s, balance, mode, free) => AddAssetKeeps(db, cat, free, t.p, s, balance, mode);
      case Edit(s, balance, mode) => EditOpeningKeeps(db, t.p, s, balance, mode);
      case Remove(s) => RemoveAssetKeeps(db, t.p, s);
    }
  }

  lemma {:induction false} RunKeeps(db: Db, cat: Catalog, ts: seq<Call>)
    ensures KeepsBalances(db, Run(db, cat, ts))
    ensures (forall t :: t in ts ==> !Retimes(t)) ==> Keeps(db, Run(db, cat, ts))
    decreases ts
  {
    if ts != [] {
      ApplyKeeps(db, cat, ts[0]);
      RunKeeps(Apply(db, cat, ts[0]), cat, ts[1..]);
    }
  }

  /**
    Over every run, timestamp-only patches included, each existing asset's balance and net deposit
    are opening plus buys minus sells of its rows.
   */
  lemma RunKeepsBalances(db: Db, cat: Catalog, ts: seq<Call>)
    requires AllBalanced(db)
    ensures AllBalanced(Run(db, cat, ts))
  {
    RunKeeps(db, cat, ts);
  }

  /** Without timestamp-only patches the cost columns are the chronological fold too. */
  lemma RunKeepsProjections(db: Db, cat: Catalog, ts: seq<Call>)
    requires AllSettled(db) && forall t :: t in ts ==> !Retimes(t)
    ensures AllSettled(Run(db, cat, ts))
  {
    RunKeeps(db, cat, ts);
  }

  // ---------------------------------------------------------------------------------------------
  // Portfolio totals
  // ---------------------------------------------------------------------------------------------

  /** The portfolios whose total a request recalculates. */
  ghost function Recalculated(db: Db, cat: Catalog, t: Call): set<int> {
    if Outcome(db, cat, t).None? then {}
    else
      match t.request
      case Create(b, _, _) => if b.kind == Nft then {} else {t.p}
      case Update(id, patch, _) =>
        if SkipsRecalc(patch) || db.rows[IndexOf(db.rows, id)].kind == Nft then {} else {t.p}
      case Delete(id) =>
        var r := db.rows[IndexOf(db.rows, id)];
        if r.group.Some? then GroupPortfolios(db.rows, r.group.value) else if r.kind == Nft then {} else {t.p}
      case Import(_, lines, free) =>
        if ToInsert(ScanRows(db, cat, free, t.p, StartScan(db, t.p), lines, 0).prepared) == [] then {} else {t.p}
      case Move(dst, _, _, _, _) => {t.p, dst}
      case Edit(_, balance, cost) => if balance.None? && cost.None? then {} else {t.p}
      case _ => {t.p}
  }

  lemma RecalculatedTotals(db: Db, cat: Catalog, t: Call)
    ensures forall p :: p in Recalculated(db, cat, t) ==> TotalOk(Apply(db, cat, t), p)
  {
  }

  lemma {:induction false} RunSplit(db: Db, cat: Catalog, xs: seq<Call>, ys: seq<Call>)
    ensures Run(db, cat, xs + ys) == Run(Run(db, cat, xs), cat, ys)
    decreases xs
  {
    if xs == [] {
      assert xs + ys == ys;
    } else {
      assert (xs + ys)[1..] == xs[1..] + ys;
      RunSplit(Apply(db, cat, xs[0]), cat, xs[1..], ys);
    }
  }

  /**
    Once any request has recalculated a portfolio, its net deposit is the sum over its assets for
    the rest of the run, whatever it started from.
   */
  lemma TotalOnceRecalculated(db: Db, cat: Catalog, ts: seq<Call>, k: nat, p: int)
    requires k < |ts| && p in Recalculated(Run(db, cat, ts[..k]), cat, ts[k])
    ensures TotalOk(Run(db, cat, ts), p)
  {
    var before := Run(db, cat, ts[..k]);
    RecalculatedTotals(before, cat, ts[k]);
    assert ts == ts[..k] + ([ts[k]] + ts[k+1..]);
    RunSplit(db, cat, ts[..k], [ts[k]] + ts[k+1..]);
    RunSplit(before, cat, [ts[k]], ts[k+1..]);
    assert Run(before, cat, [ts[k]]) == Apply(before, cat, ts[k]);
    RunKeeps(Apply(before, cat, ts[k]), cat, ts[k+1..]);
  }

  // ---------------------------------------------------------------------------------------------
  // Timestamp-only patches
  // ---------------------------------------------------------------------------------------------

  const NO_LOT := Lot(0.0, None)

  function Bought(ts: int): TxRow { TxRow(1, 7, Native, "BTC", Buy, 1.0, 10.0, None, ts, None, None) }

  function Sold(ts: int): TxRow { TxRow(2, 7, Native, "BTC", Sell, 1.0, 30.0, None, ts, None, None) }

  lemma TwoRowHistory(x: TxRow, y: TxRow, p: int, s: string)
    requires Matches(x, p, s) && Matches(y, p, s)
    ensures EventsOf([x, y], p, s) == [ToEvent(x), ToEvent(y)]
    ensures History([x, y], p, s) == if Before(ToEvent(y), ToEvent(x)) then [ToEvent(y), ToEvent(x)] else [ToEvent(x), ToEvent(y)]
  {
    var e, f := ToEvent(x), ToEvent(y);
    assert [x, y][1..] == [y] && EventsOf([y], p, s) == [f];
    assert [e, f][1..] == [f] && Sort([f]) == [f];
    assert [f][1..] == [] && Insert(e, []) == [e];
  }

  /** Bought at 10 and sold at 30 realizes 20; sold first it realizes nothing. */
  lemma RetimedGain(ts: int)
    ensures Project(NO_LOT, History([Bought(ts + 1), Sold(ts + 2)], 7, "BTC")).realizedPnl == 20.0
    ensures Project(NO_LOT, History([Bought(ts + 1), Sold(ts)], 7, "BTC")).realizedPnl == 0.0
  {
    var b, s, s' := ToEvent(Bought(ts + 1)), ToEvent(Sold(ts + 2)), ToEvent(Sold(ts));
    TwoRowHistory(Bought(ts + 1), Sold(ts + 2), 7, "BTC");
    TwoRowHistory(Bought(ts + 1), Sold(ts), 7, "BTC");
    var a := Start(NO_LOT);
    assert [b, s][1..] == [s] && [s', b][1..] == [b];
    assert Fold(a, [b, s]) == Fold(Step(Step(a, b), s), []);
    assert Fold(a, [s', b]) == Fold(Step(Step(a, s'), b), []);
    assert Step(a, b) == Acc(1.0, 1.0, 10.0, 0.0, 10.0);
  }

  /** Whatever time a patch sets, some consistent ledger is left with a stale gain. */
  lemma RetimingLeavesStaleCosts(b: Patch) returns (db: Db)
    requires Retiming(b)
    ensures 7 in db.portfolios && AllSettled(db)
    ensures var r := UpdateTransaction(db, map[], 0.0, 7, 2, b); r.Ok? && !AllSettled(r.value)
  {
    var ts := b.ts.value;
    var rows := [Bought(ts + 1), Sold(ts + 2)];
    var a := Asset(NO_LOT, Project(NO_LOT, History(rows, 7, "BTC")));
    db := Db(map[7 := Portfolio(1, Manual, -20.0, map["BTC" := a])], rows, 3);
    assert IndexOf(rows, 2) == 1 by {
      assert rows[1..] == [Sold(ts + 2)];
    }
    var r := UpdateTransaction(db, map[], 0.0, 7, 2, b);
    assert r.Ok? && r.value == db.(rows := [Bought(ts + 1), Sold(ts)]);
    RetimedGain(ts);
    assert !Settled(r.value, 7, "BTC");
  }

  ghost predicate KeepsEveryProjection(b: Patch) {
    forall db: Db, cat: Catalog, market: real, p: int, id: int :: p in db.portfolios && AllSettled(db) ==>
      var r := UpdateTransaction(db, cat, market, p, id, b); r.Ok? ==> AllSettled(r.value)
  }

  /** A patch keeps every ledger's projections chronological exactly when it is not timestamp-only. */
  lemma ProjectionsKeptIffNotRetimed(b: Patch)
    ensures KeepsEveryProjection(b) <==> !Retiming(b)
  {
    if Retiming(b) {
      var db := RetimingLeavesStaleCosts(b);
    } else {
      forall db: Db, cat: Catalog, market: real, p: int, id: int | p in db.portfolios && AllSettled(db)
        ensures var r := UpdateTransaction(db, cat, market, p, id, b); r.Ok? ==> AllSettled(r.value)
      {
        UpdateKeeps(db, cat, market, p, id, b);
      }
    }
  }

  /**
    The netDeposit-only asset patch is the one request outside these runs: from consistent tables it
    keeps them consistent exactly when it writes the value that is already there.
   */
  lemma DirectEditKeepsIffUnchanged(db: Db, p: int, s: string, x: real)
    requires HasAsset(db, p, s) && Balanced(db, p, s)
    ensures KeepsBalances(db, SetNetDeposit(db, p, s, x).value) <==> x == AssetAt(db, p, s).p.netDeposit
  {
    var after := SetNetDeposit(db, p, s, x).value;
    if x == AssetAt(db, p, s).p.netDeposit {
      assert after.portfolios[p].assets == db.portfolios[p].assets;
      assert after.portfolios == db.portfolios;
    } else {
      assert !Balanced(after, p, s);
    }
  }

  /** A balance-only edit keeps the opening cost per unit, so a projected average is not disturbed. */
  lemma EditKeepsUnitCost(lot: Lot, balance: real)
    requires lot.balance > 0.0 && balance > 0.0
    ensures var edited := EditedLot(lot, balance, None);
            && edited.balance == balance && (edited.cost.Some? <==> lot.cost.Some?)
            && (lot.cost.Some? ==> edited.cost.value / balance == lot.cost.value / lot.balance)
  {
    if lot.cost.Some? {
      var unit := lot.cost.value / lot.balance;
      assert (balance * unit) / balance == unit;
    }
  }
}
