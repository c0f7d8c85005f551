/**
  The ledger's tables and what each request does to them, as functions on the tables.

  A token is identified with its unique symbol.  A row is a transaction together with its detail.
  The paired asset row of (portfolio, token) lives in the portfolio's map.  Every request is one
  database transaction: it either yields new tables or an error that leaves them alone.
 */
module Ledger {
  import opened Options
  import opened Recalc
  import opened Totals

  datatype Kind = Native | Erc20 | Nft

  datatype TxRow = TxRow(
    id: int, portfolio: int, kind: Kind, symbol: string, dir: Direction, amount: real, usd: real,
    price: Option<real>, ts: int, group: Option<int>, hash: Option<string>)

  datatype Asset = Asset(lot: Lot, p: Projection)

  datatype PortfolioKind = Manual | Connected

  datatype Portfolio = Portfolio(owner: int, kind: PortfolioKind, netDeposit: real, assets: map<string, Asset>)

  /** `rows` is in insertion order; `nextId` is the next id of the transaction table. */
  datatype Db = Db(portfolios: map<int, Portfolio>, rows: seq<TxRow>, nextId: int)

  /** The token catalog: symbol to market rank. */
  type Catalog = map<string, Option<nat>>

  datatype LedgerError =
    | ReadOnly | UnknownSymbol | PlanLimit | AssetNotInPortfolio | InsufficientBalance | HashDuplicate
    | TransactionNotFound | TransferEditUnsupported | DestNotFound | InvalidTransferTarget
    | InvalidBalance | AssetAlreadyExists | PriceUnavailable | AssetNotFound

  // ---------------------------------------------------------------------------------------------
  // Rows and histories
  // ---------------------------------------------------------------------------------------------

  predicate Matches(r: TxRow, p: int, s: string) {
    r.kind != Nft && r.portfolio == p && r.symbol == s
  }

  function ToEvent(r: TxRow): Event {
    Event(r.dir, r.amount, r.usd, r.group.Some?, r.ts, r.id)
  }

  /** The native and ERC-20 rows of one holding, in insertion order. */
  function EventsOf(rows: seq<TxRow>, p: int, s: string): seq<Event> {
    if rows == [] then []
    else (if Matches(rows[0], p, s) then [ToEvent(rows[0])] else []) + EventsOf(rows[1..], p, s)
  }

  function History(rows: seq<TxRow>, p: int, s: string): seq<Event> {
    Sort(EventsOf(rows, p, s))
  }

  lemma {:induction false} EventsConcat(xs: seq<TxRow>, ys: seq<TxRow>, p: int, s: string)
    ensures EventsOf(xs + ys, p, s) == EventsOf(xs, p, s) + EventsOf(ys, p, s)
  {
    if xs == [] {
      assert xs + ys == ys;
    } else {
      assert (xs + ys)[1..] == xs[1..] + ys;
      EventsConcat(xs[1..], ys, p, s);
    }
  }

  lemma EventsSplit(rows: seq<TxRow>, i: nat, p: int, s: string)
    requires i < |rows|
    ensures EventsOf(rows, p, s) == EventsOf(rows[..i], p, s) + EventsOf([rows[i]], p, s) + EventsOf(rows[i+1..], p, s)
  {
    assert rows == rows[..i] + [rows[i]] + rows[i+1..];
    EventsConcat(rows[..i] + [rows[i]], rows[i+1..], p, s);
    EventsConcat(rows[..i], [rows[i]], p, s);
  }

  /** Changing, adding or removing a row that is not part of a holding leaves its history alone. */
  lemma EventsUpdate(rows: seq<TxRow>, i: nat, r: TxRow, p: int, s: string)
    requires i < |rows|
    ensures EventsOf(rows[i := r], p, s) == EventsOf(rows[..i], p, s) + EventsOf([r], p, s) + EventsOf(rows[i+1..], p, s)
  {
    EventsSplit(rows[i := r], i, p, s);
  }

  lemma EventsRemove(rows: seq<TxRow>, i: nat, p: int, s: string)
    requires i < |rows|
    ensures EventsOf(rows[..i] + rows[i+1..], p, s) == EventsOf(rows[..i], p, s) + EventsOf(rows[i+1..], p, s)
  {
    EventsConcat(rows[..i], rows[i+1..], p, s);
  }

  /** The rows of a transfer group. */
  function Legs(rows: seq<TxRow>, g: int): seq<TxRow> {
    if rows == [] then [] else (if rows[0].group == Some(g) then [rows[0]] else []) + Legs(rows[1..], g)
  }

  lemma {:induction false} LegsMembers(rows: seq<TxRow>, g: int, r: TxRow)
    ensures r in Legs(rows, g) <==> r in rows && r.group == Some(g)
  {
    if rows != [] {
      LegsMembers(rows[1..], g, r);
    }
  }

  function WithoutGroup(rows: seq<TxRow>, g: int): seq<TxRow> {
    if rows == [] then []
    else (if rows[0].group == Some(g) then [] else [rows[0]]) + WithoutGroup(rows[1..], g)
  }

  lemma {:induction false} EventsWithoutGroup(rows: seq<TxRow>, g: int, p: int, s: string)
    requires forall r :: r in rows && r.group == Some(g) ==> !Matches(r, p, s)
    ensures EventsOf(WithoutGroup(rows, g), p, s) == EventsOf(rows, p, s)
  {
    if rows != [] {
      EventsWithoutGroup(rows[1..], g, p, s);
      EventsConcat(if rows[0].group == Some(g) then [] else [rows[0]], WithoutGroup(rows[1..], g), p, s);
    }
  }

  /** Index of the row with this id, or |rows|. */
  function IndexOf(rows: seq<TxRow>, id: int): (i: nat)
    ensures i <= |rows|
    ensures i < |rows| ==> rows[i].id == id
    ensures forall j :: 0 <= j < i ==> rows[j].id != id
  {
    if rows == [] || rows[0].id == id then 0 else 1 + IndexOf(rows[1..], id)
  }

  predicate HashTaken(rows: seq<TxRow>, p: int, hash: Option<string>) {
    hash.Some? && exists i :: 0 <= i < |rows| && rows[i].portfolio == p && rows[i].hash == hash
  }

  /** Ids grow with insertion and stay below the sequence. */
  ghost predicate IdsOk(rows: seq<TxRow>, nextId: int) {
    && (forall i, j :: 0 <= i < j < |rows| ==> rows[i].id < rows[j].id)
    && forall i :: 0 <= i < |rows| ==> rows[i].id < nextId
  }

  lemma {:induction false} EventIds(rows: seq<TxRow>, n: int, p: int, s: string)
    requires IdsOk(rows, n)
    ensures DistinctIds(EventsOf(rows, p, s))
  {
    hide ToEvent;
    if rows != [] {
      var tail := EventsOf(rows[1..], p, s);
      EventIds(rows[1..], n, p, s);
      forall e | e in tail ensures e.id != rows[0].id {
        var i := RowOfEvent(rows[1..], p, s, e);
        assert rows[0].id < rows[i+1].id;
      }
      EventHead(rows, p, s);
    }
  }

  lemma EventHead(rows: seq<TxRow>, p: int, s: string)
    requires rows != []
    ensures EventsOf(rows, p, s) == EventsOf(rows[1..], p, s)
      || (|EventsOf(rows, p, s)| == 1 + |EventsOf(rows[1..], p, s)| && EventsOf(rows, p, s)[0].id == rows[0].id
          && EventsOf(rows, p, s)[1..] == EventsOf(rows[1..], p, s))
  {
  }

  lemma {:induction false} RowOfEvent(rows: seq<TxRow>, p: int, s: string, e: Event) returns (i: nat)
    requires e in EventsOf(rows, p, s)
    ensures i < |rows| && rows[i].id == e.id
  {
    if e in EventsOf(rows[1..], p, s) {
      i := RowOfEvent(rows[1..], p, s, e);
      i := i + 1;
    } else {
      i := 0;
    }
  }

  lemma {:induction false} RowHasEvent(rows: seq<TxRow>, i: nat, p: int, s: string)
    requires i < |rows| && Matches(rows[i], p, s)
    ensures ToEvent(rows[i]) in EventsOf(rows, p, s)
  {
    if i > 0 {
      RowHasEvent(rows[1..], i - 1, p, s);
    }
  }

  /** A history runs forward in time, and by id within one moment. */
  lemma HistoryInOrder(rows: seq<TxRow>, nextId: int, p: int, s: string)
    requires IdsOk(rows, nextId)
    ensures var h := History(rows, p, s);
            forall i, j :: 0 <= i < j < |h| ==> h[i].ts < h[j].ts || (h[i].ts == h[j].ts && h[i].id < h[j].id)
  {
    hide EventsOf, Sort;
    EventIds(rows, nextId, p, s);
    SortSorts(EventsOf(rows, p, s));
    SortKeepsIds(EventsOf(rows, p, s));
  }

  /** Where a row of the holding stands in its history. */
  lemma HistoryHolds(rows: seq<TxRow>, i: nat, p: int, s: string) returns (at: nat)
    requires i < |rows| && Matches(rows[i], p, s)
    ensures at < |History(rows, p, s)| && History(rows, p, s)[at] == ToEvent(rows[i])
  {
    hide EventsOf, Sort;
    RowHasEvent(rows, i, p, s);
    SortSorts(EventsOf(rows, p, s));
    assert ToEvent(rows[i]) in multiset(History(rows, p, s));
    at :| 0 <= at < |History(rows, p, s)| && History(rows, p, s)[at] == ToEvent(rows[i]);
  }

  /**
    Of two rows of a holding the earlier one is folded first, and of two rows with one timestamp the one
    that was logged first.
   */
  lemma LoggedFirstFoldedFirst(rows: seq<TxRow>, nextId: int, a: nat, b: nat, p: int, s: string) returns (i: nat, j: nat)
    requires IdsOk(rows, nextId) && a < |rows| && b < |rows| && Matches(rows[a], p, s) && Matches(rows[b], p, s)
    requires rows[a].ts < rows[b].ts || (rows[a].ts == rows[b].ts && a < b)
    ensures i < j < |History(rows, p, s)|
    ensures History(rows, p, s)[i] == ToEvent(rows[a]) && History(rows, p, s)[j] == ToEvent(rows[b])
  {
    hide History;
    HistoryInOrder(rows, nextId, p, s);
    i := HistoryHolds(rows, a, p, s);
    j := HistoryHolds(rows, b, p, s);
  }

  // ---------------------------------------------------------------------------------------------
  // Recalculation
  // ---------------------------------------------------------------------------------------------

  const ZERO := Projection(0.0, 0.0, 0.0, None, 0.0)

  /** An asset row created by a buy or by an incoming transfer: a pure trade, cost unknown. */
  const EMPTY_ASSET := Asset(Lot(0.0, None), ZERO)

  function NetDeposits(assets: map<string, Asset>): map<string, real> {
    map s | s in assets :: assets[s].p.netDeposit
  }

  ghost function ResettledAssets(db: Db, p: int, targets: set<(int, string)>): map<string, Asset>
    requires p in db.portfolios
  {
    var assets := db.portfolios[p].assets;
    map s | s in assets ::
      if db.portfolios[p].kind == Manual && (p, s) in targets
      then assets[s].(p := Project(assets[s].lot, History(db.rows, p, s)))
      else assets[s]
  }

  ghost function ResettledPortfolio(db: Db, p: int, targets: set<(int, string)>, totals: set<int>): Portfolio
    requires p in db.portfolios
  {
    var assets := ResettledAssets(db, p, targets);
    db.portfolios[p].(
      assets := assets,
      netDeposit := if p in totals then Total(NetDeposits(assets)) else db.portfolios[p].netDeposit)
  }

  ghost function ResettledPortfolios(db: Db, targets: set<(int, string)>, totals: set<int>): map<int, Portfolio> {
    map p | p in db.portfolios :: ResettledPortfolio(db, p, targets, totals)
  }

  /**
    The tables after recalculating the asset rows in `targets` and then the portfolio totals in
    `totals`: each existing target of a manual portfolio is re-projected from its lot and history,
    and each total becomes the sum over its portfolio's assets.  Nothing else changes.
   */
  ghost function Resettle(db: Db, targets: set<(int, string)>, totals: set<int>): Db {
    Db(ResettledPortfolios(db, targets, totals), db.rows, db.nextId)
  }

  /** Recalculations compose, as long as no total is left behind by a later asset recalculation. */
  lemma ResettleTwice(db: Db, t1: set<(int, string)>, p1: set<int>, t2: set<(int, string)>, p2: set<int>)
    requires forall t :: t in t2 && t.0 in p1 ==> t.0 in p2
    ensures Resettle(Resettle(db, t1, p1), t2, p2) == Resettle(db, t1 + t2, p1 + p2)
  {
    var a, b, c := Resettle(db, t1, p1), Resettle(Resettle(db, t1, p1), t2, p2), Resettle(db, t1 + t2, p1 + p2);
    forall p | p in db.portfolios ensures b.portfolios[p] == c.portfolios[p] {
      assert ResettledAssets(a, p, t2) == ResettledAssets(db, p, t1 + t2);
      if p in p1 && p !in p2 {
        assert ResettledAssets(db, p, t1) == ResettledAssets(a, p, t2);
      }
    }
    assert b.portfolios == c.portfolios;
  }

  // ---------------------------------------------------------------------------------------------
  // What consistent tables satisfy
  // ---------------------------------------------------------------------------------------------

  ghost predicate HasAsset(db: Db, p: int, s: string) {
    p in db.portfolios && db.portfolios[p].kind == Manual && s in db.portfolios[p].assets
  }

  ghost function AssetAt(db: Db, p: int, s: string): Asset
    requires HasAsset(db, p, s)
  {
    db.portfolios[p].assets[s]
  }

  /** All five projected columns are the chronological fold of the holding's rows. */
  ghost predicate Settled(db: Db, p: int, s: string) {
    HasAsset(db, p, s) ==>
      AssetAt(db, p, s).p == Project(AssetAt(db, p, s).lot, History(db.rows, p, s))
  }

  /** Balance and net deposit are opening plus buys minus sells. */
  ghost predicate Balanced(db: Db, p: int, s: string) {
    HasAsset(db, p, s) ==>
      var a := AssetAt(db, p, s);
      && a.p.balance == a.lot.balance + NetQty(EventsOf(db.rows, p, s))
      && a.p.netDeposit == a.lot.cost.GetOr(0.0) + NetUsd(EventsOf(db.rows, p, s))
  }

  ghost predicate AllSettled(db: Db) { forall p, s :: Settled(db, p, s) }

  ghost predicate AllBalanced(db: Db) { forall p, s :: Balanced(db, p, s) }

  /** The portfolio's net deposit is the sum over its assets. */
  ghost predicate TotalOk(db: Db, p: int) {
    p in db.portfolios ==> db.portfolios[p].netDeposit == Total(NetDeposits(db.portfolios[p].assets))
  }

  lemma SettledIsBalanced(db: Db, p: int, s: string)
    ensures Settled(db, p, s) ==> Balanced(db, p, s)
  {
    if HasAsset(db, p, s) {
      ProjectNets(AssetAt(db, p, s).lot, EventsOf(db.rows, p, s));
    }
  }

  lemma ResettleSettles(db: Db, targets: set<(int, string)>, totals: set<int>)
    ensures forall p, s :: (p, s) in targets ==> Settled(Resettle(db, targets, totals), p, s)
    ensures forall p :: p in totals ==> TotalOk(Resettle(db, targets, totals), p)
  {
  }

  // ---------------------------------------------------------------------------------------------
  // Requests
  // ---------------------------------------------------------------------------------------------

  datatype NewTx = NewTx(
    kind: Kind, symbol: string, dir: Direction, amount: real, price: Option<real>, ts: int, hash: Option<string>)

  /** The entered price wins; otherwise the current market price at write time (0 when unknown). */
  function UsdValue(amount: real, price: Option<real>, market: real): real {
    amount * price.GetOr(market)
  }

  function NewRow(id: int, p: int, b: NewTx, market: real): TxRow {
    TxRow(id, p, b.kind, b.symbol, b.dir, b.amount,
          if b.kind == Nft then 0.0 else UsdValue(b.amount, b.price, market), b.price, b.ts, None, b.hash)
  }

  function Append(db: Db, r: TxRow): Db {
    db.(rows := db.rows + [r.(id := db.nextId)], nextId := db.nextId + 1)
  }

  /** Creates the asset row of an unheld token; leaves a held one alone. */
  function EnsureAsset(db: Db, p: int, s: string): Db
    requires p in db.portfolios
  {
    if s in db.portfolios[p].assets then db
    else db.(portfolios := db.portfolios[p := db.portfolios[p].(assets := db.portfolios[p].assets[s := EMPTY_ASSET])])
  }

  /** A free plan may add top-ten tokens only. */
  predicate RankAllowed(rank: Option<nat>, free: bool) {
    !free || (rank.Some? && rank.value <= 10)
  }

  /** Why a create is refused, in the order the checks are made. */
  function Refusal(db: Db, cat: Catalog, free: bool, p: int, b: NewTx): Option<LedgerError>
    requires p in db.portfolios
  {
    var assets := db.portfolios[p].assets;
    if db.portfolios[p].kind == Connected then Some(ReadOnly)
    else if b.kind != Nft && b.symbol !in cat then Some(UnknownSymbol)
    else if b.kind != Nft && b.dir == Buy && b.symbol !in assets && !RankAllowed(cat[b.symbol], free) then Some(PlanLimit)
    else if b.kind != Nft && b.dir != Buy && b.symbol !in assets then Some(AssetNotInPortfolio)
    else if b.kind != Nft && b.dir == Sell && b.amount > assets[b.symbol].p.balance then Some(InsufficientBalance)
    else if HashTaken(db.rows, p, b.hash) then Some(HashDuplicate)
    else None
  }

  ghost function Created(db: Db, market: real, p: int, b: NewTx): Db
    requires p in db.portfolios
  {
    if b.kind == Nft then Append(db, NewRow(0, p, b, market))
    else Resettle(Append(EnsureAsset(db, p, b.symbol), NewRow(0, p, b, market)), {(p, b.symbol)}, {p})
  }

  ghost function CreateTransaction(db: Db, cat: Catalog, free: bool, market: real, p: int, b: NewTx): Result<Db, LedgerError>
    requires p in db.portfolios
  {
    match Refusal(db, cat, free, p, b)
    case Some(e) => Err(e)
    case None => Ok(Created(db, market, p, b))
  }

  datatype Patch = Patch(
    dir: Option<Direction>, amount: Option<real>, symbol: Option<string>, price: Option<real>, ts: Option<int>)

  /** A patch without these fields is written without a recalculation. */
  predicate SkipsRecalc(b: Patch) {
    b.dir.None? && b.amount.None? && b.symbol.None? && b.price.None?
  }

  function PatchedRow(r: TxRow, b: Patch, market: real): TxRow {
    var r1 := r.(dir := b.dir.GetOr(r.dir), ts := b.ts.GetOr(r.ts));
    if r.kind == Nft then r1
    else
      var amount, price := b.amount.GetOr(r.amount), if b.price.Some? then b.price else r.price;
      var usd := if b.amount.Some? || b.symbol.Some? || b.price.Some? then UsdValue(amount, price, market) else r.usd;
      r1.(symbol := b.symbol.GetOr(r.symbol), amount := amount, price := price, usd := usd)
  }

  ghost function UpdateTransaction(db: Db, cat: Catalog, market: real, p: int, id: int, b: Patch): Result<Db, LedgerError>
    requires p in db.portfolios
  {
    var i := IndexOf(db.rows, id);
    if db.portfolios[p].kind == Connected then Err(ReadOnly)
    else if i == |db.rows| || db.rows[i].portfolio != p then Err(TransactionNotFound)
    else if db.rows[i].group.Some? then Err(TransferEditUnsupported)
    else
      var was := db.rows[i];
      var moved := was.kind != Nft && b.symbol.Some? && b.symbol.value != was.symbol;
      if moved && b.symbol.value !in cat then Err(UnknownSymbol)
      else if moved && b.symbol.value !in db.portfolios[p].assets then Err(AssetNotInPortfolio)
      else
        var now := PatchedRow(was, b, market);
        var db1 := db.(rows := db.rows[i := now]);
        if SkipsRecalc(b) || was.kind == Nft then Ok(db1)
        else Ok(Resettle(db1, {(p, was.symbol), (p, now.symbol)}, {p}))
  }

  /** The holdings that have a leg in the group. */
  function GroupTargets(rows: seq<TxRow>, g: int): set<(int, string)> {
    set r | r in rows && r.group == Some(g) && r.kind != Nft :: (r.portfolio, r.symbol)
  }

  function GroupPortfolios(rows: seq<TxRow>, g: int): set<int> {
    set r | r in rows && r.group == Some(g) :: r.portfolio
  }

  ghost function DeleteTransaction(db: Db, p: int, id: int): Result<Db, LedgerError>
    requires p in db.portfolios
  {
    var i := IndexOf(db.rows, id);
    if db.portfolios[p].kind == Connected then Err(ReadOnly)
    else if i == |db.rows| || db.rows[i].portfolio != p then Err(TransactionNotFound)
    else
      var r := db.rows[i];
      match r.group
      case Some(g) =>
        Ok(Resettle(db.(rows := WithoutGroup(db.rows, g)), GroupTargets(db.rows, g), GroupPortfolios(db.rows, g)))
      case None =>
        var db1 := db.(rows := db.rows[..i] + db.rows[i+1..]);
        if r.kind == Nft then Ok(db1) else Ok(Resettle(db1, {(p, r.symbol)}, {p}))
  }

  /** One leg of a paired transfer; both legs carry the same dollars. */
  function Leg(p: int, s: string, dir: Direction, amount: real, usd: real, ts: int, g: int): TxRow {
    TxRow(0, p, Native, s, dir, amount, usd, None, ts, Some(g), None)
  }

  /** The destination asset and both legs, before any recalculation. */
  function WithLegs(db: Db, src: int, dst: int, s: string, amount: real, usd: real, ts: int, g: int): Db
    requires dst in db.portfolios
  {
    var db1 := Append(EnsureAsset(db, dst, s), Leg(src, s, Sell, amount, usd, ts, g));
    Append(db1, Leg(dst, s, Buy, amount, usd, ts, g))
  }

  /** Net deposit carried by `amount` units, at the source's net deposit per unit. */
  function CarriedUsd(amount: real, held: Projection): real
    requires held.balance > 0.0
  {
    amount * held.netDeposit / held.balance
  }

  ghost function Moved(db: Db, src: int, dst: int, s: string, amount: real, usd: real, ts: int, g: int): Db
    requires dst in db.portfolios
  {
    Resettle(WithLegs(db, src, dst, s, amount, usd, ts, g), {(src, s), (dst, s)}, {src, dst})
  }

  /** Moves `amount` units from `src` to `dst`, carrying net deposit per unit. */
  ghost function CreateTransfer(
    db: Db, cat: Catalog, src: int, dst: int, s: string, amount: real, ts: int, g: int): Result<Db, LedgerError>
    requires src in db.portfolios && amount > 0.0
  {
    if db.portfolios[src].kind == Connected then Err(ReadOnly)
    else if dst !in db.portfolios || db.portfolios[dst].owner != db.portfolios[src].owner then Err(DestNotFound)
    else if dst == src || db.portfolios[dst].kind == Connected then Err(InvalidTransferTarget)
    else if s !in cat then Err(UnknownSymbol)
    else if s !in db.portfolios[src].assets || db.portfolios[src].assets[s].p.balance < amount then Err(InsufficientBalance)
    else
      Ok(Moved(db, src, dst, s, amount, CarriedUsd(amount, db.portfolios[src].assets[s].p), ts, g))
  }

  /** How the cost of an opening position was entered, once a historical price was looked up. */
  datatype CostMode = NoCost | PerUnit(price: real) | PriceMissing

  function OpeningCost(balance: real, mode: CostMode): Option<real> {
    match mode
    case PerUnit(price) => Some(balance * price)
    case _ => None
  }

  function WithAsset(db: Db, p: int, s: string, a: Asset): Db
    requires p in db.portfolios
  {
    db.(portfolios := db.portfolios[p := db.portfolios[p].(assets := db.portfolios[p].assets[s := a])])
  }

  ghost function AddAsset(
    db: Db, cat: Catalog, free: bool, p: int, s: string, balance: real, mode: CostMode): Result<Db, LedgerError>
    requires p in db.portfolios
  {
    if db.portfolios[p].kind == Connected then Err(ReadOnly)
    else if balance <= 0.0 then Err(InvalidBalance)
    else if s !in cat then Err(UnknownSymbol)
    else if !RankAllowed(cat[s], free) then Err(PlanLimit)
    else if s in db.portfolios[p].assets then Err(AssetAlreadyExists)
    else if mode.PriceMissing? then Err(PriceUnavailable)
    else Ok(Resettle(WithAsset(db, p, s, Asset(Lot(balance, OpeningCost(balance, mode)), ZERO)), {(p, s)}, {p}))
  }

  /** A balance-only edit keeps the opening cost per unit. */
  function EditedLot(lot: Lot, balance: real, mode: Option<CostMode>): Lot {
    match mode
    case Some(m) => Lot(balance, OpeningCost(balance, m))
    case None =>
      Lot(balance, if lot.cost.Some? && lot.balance > 0.0 then Some(balance * (lot.cost.value / lot.balance)) else None)
  }

  ghost function EditOpening(
    db: Db, p: int, s: string, balance: Option<real>, mode: Option<CostMode>): Result<Db, LedgerError>
    requires p in db.portfolios
  {
    if db.portfolios[p].kind == Connected then Err(ReadOnly)
    else if s !in db.portfolios[p].assets then Err(AssetNotFound)
    else if balance.None? && mode.None? then Ok(db)
    else
      var a := db.portfolios[p].assets[s];
      var b := balance.GetOr(a.lot.balance);
      if b <= 0.0 then Err(InvalidBalance)
      else if mode == Some(PriceMissing) then Err(PriceUnavailable)
      else Ok(Resettle(WithAsset(db, p, s, a.(lot := EditedLot(a.lot, b, mode))), {(p, s)}, {p}))
  }

  /** The asset patch that carries only a netDeposit: the stored column is overwritten, nothing is recalculated. */
  function SetNetDeposit(db: Db, p: int, s: string, x: real): Result<Db, LedgerError>
    requires p in db.portfolios
  {
    if db.portfolios[p].kind == Connected then Err(ReadOnly)
    else if s !in db.portfolios[p].assets then Err(AssetNotFound)
    else
      var a := db.portfolios[p].assets[s];
      Ok(WithAsset(db, p, s, a.(p := a.p.(netDeposit := x))))
  }

  /** Deletes the asset row.  The holding's transaction rows stay. */
  ghost function RemoveAsset(db: Db, p: int, s: string): Result<Db, LedgerError>
    requires p in db.portfolios
  {
    if db.portfolios[p].kind == Connected then Err(ReadOnly)
    else if s !in db.portfolios[p].assets then Err(AssetNotFound)
    else
      var rest := db.portfolios[p].assets - {s};
      Ok(Resettle(db.(portfolios := db.portfolios[p := db.portfolios[p].(assets := rest)]), {}, {p}))
  }
}
