/**
  The ledger as the services change it: one object holding the tables, one method per request, each
  taking the steps of the source in their order.  Every method is proved against the function of
  the same name on the tables, to which all the other results about the ledger apply.
 */
module LedgerStores {
  import opened Options
  import opened Recalc
  import opened Sets
  import opened Totals
  import opened Ledger
  import opened Bulk
  import opened LedgerRuns

  // ---------------------------------------------------------------------------------------------
  // The two detail tables
  // ---------------------------------------------------------------------------------------------

  /** The rows of one holding in one detail table. */
  function Details(rows: seq<TxRow>, kind: Kind, p: int, s: string): seq<Event> {
    if rows == [] then []
    else (if rows[0].kind == kind && rows[0].portfolio == p && rows[0].symbol == s then [ToEvent(rows[0])] else [])
         + Details(rows[1..], kind, p, s)
  }

  lemma {:induction false} DetailsAreEvents(rows: seq<TxRow>, p: int, s: string)
    ensures multiset(EventsOf(rows, p, s)) == multiset(Details(rows, Native, p, s)) + multiset(Details(rows, Erc20, p, s))
  {
    if rows != [] {
      DetailsAreEvents(rows[1..], p, s);
    }
  }

  /** Reading the native rows before the token rows changes nothing once they are sorted. */
  lemma DetailsSortToHistory(rows: seq<TxRow>, n: int, p: int, s: string)
    requires IdsOk(rows, n)
    ensures Sort(Details(rows, Native, p, s) + Details(rows, Erc20, p, s)) == History(rows, p, s)
  {
    EventIds(rows, n, p, s);
    DetailsAreEvents(rows, p, s);
    SortIgnoresOrder(EventsOf(rows, p, s), Details(rows, Native, p, s) + Details(rows, Erc20, p, s));
  }

  // ---------------------------------------------------------------------------------------------
  // Deleting a group leg by leg
  // ---------------------------------------------------------------------------------------------

  /** The rows once the first `n` legs of the group are gone. */
  function DropLegs(rows: seq<TxRow>, g: int, n: nat): seq<TxRow> {
    if rows == [] || n == 0 then rows
    else if rows[0].group == Some(g) then DropLegs(rows[1..], g, n - 1)
    else [rows[0]] + DropLegs(rows[1..], g, n)
  }

  lemma DropNoLegs(rows: seq<TxRow>, g: int)
    ensures DropLegs(rows, g, 0) == rows
  {
  }

  lemma {:induction false} AllLegsDropped(rows: seq<TxRow>, g: int)
    ensures DropLegs(rows, g, |Legs(rows, g)|) == WithoutGroup(rows, g)
  {
    if rows != [] {
      AllLegsDropped(rows[1..], g);
      NoLegsLeft(rows, g);
    }
  }

  lemma {:induction false} NoLegsLeft(rows: seq<TxRow>, g: int)
    ensures Legs(rows, g) == [] ==> WithoutGroup(rows, g) == rows
  {
    if rows != [] {
      NoLegsLeft(rows[1..], g);
    }
  }

  lemma {:induction false} DropLegsRows(rows: seq<TxRow>, g: int, n: nat, r: TxRow)
    requires r in DropLegs(rows, g, n)
    ensures r in rows
  {
    if rows != [] && n > 0 && r != rows[0] {
      DropLegsRows(rows[1..], g, if rows[0].group == Some(g) then n - 1 else n, r);
    }
  }

  lemma IdsCons(r: TxRow, rest: seq<TxRow>, next: int)
    requires IdsOk(rest, next) && r.id < next && forall x :: x in rest ==> r.id < x.id
    ensures IdsOk([r] + rest, next)
  {
  }

  lemma {:induction false} DropLegsIds(rows: seq<TxRow>, g: int, n: nat, next: int)
    requires IdsOk(rows, next)
    ensures IdsOk(DropLegs(rows, g, n), next)
  {
    if rows != [] && n > 0 {
      var m := if rows[0].group == Some(g) then n - 1 else n;
      var rest := DropLegs(rows[1..], g, m);
      DropLegsIds(rows[1..], g, m, next);
      forall x | x in rest ensures rows[0].id < x.id {
        DropLegsRows(rows[1..], g, m, x);
      }
      IdsCons(rows[0], rest, next);
    }
  }

  lemma {:induction false} LegIsRow(rows: seq<TxRow>, g: int, n: nat)
    requires n < |Legs(rows, g)|
    ensures Legs(rows, g)[n] in rows
  {
    if rows[0].group != Some(g) {
      LegIsRow(rows[1..], g, n);
    } else if n > 0 {
      LegIsRow(rows[1..], g, n - 1);
    }
  }

  function RemoveById(rows: seq<TxRow>, id: int): seq<TxRow>
    requires IndexOf(rows, id) < |rows|
  {
    var i := IndexOf(rows, id);
    rows[..i] + rows[i+1..]
  }

  lemma FirstRowStays(rows: seq<TxRow>, g: int, n: nat)
    requires rows != [] && rows[0].group != Some(g)
    ensures DropLegs(rows, g, n) == [rows[0]] + DropLegs(rows[1..], g, n)
    ensures Legs(rows, g) == Legs(rows[1..], g)
  {
  }

  lemma FirstRowGoes(rows: seq<TxRow>, g: int, n: nat)
    requires rows != [] && rows[0].group == Some(g)
    ensures DropLegs(rows, g, 0) == rows && DropLegs(rows, g, n + 1) == DropLegs(rows[1..], g, n)
    ensures Legs(rows, g) == [rows[0]] + Legs(rows[1..], g)
  {
  }

  /** Deleting the next leg by its id. */
  lemma {:induction false} DropNextLeg(rows: seq<TxRow>, g: int, n: nat, next: int)
    requires IdsOk(rows, next) && n < |Legs(rows, g)|
    ensures var cur, id := DropLegs(rows, g, n), Legs(rows, g)[n].id;
            IndexOf(cur, id) < |cur| && RemoveById(cur, id) == DropLegs(rows, g, n + 1)
  {
    hide IndexOf, RemoveById, DropLegs;
    if rows[0].group != Some(g) {
      FirstRowStays(rows, g, n);
      FirstRowStays(rows, g, n + 1);
      DropNextLeg(rows[1..], g, n, next);
      LegIsRow(rows[1..], g, n);
      RemoveFromTail(rows[0], DropLegs(rows[1..], g, n), Legs(rows, g)[n].id);
    } else {
      FirstRowGoes(rows, g, n);
      DropNoLegs(rows[1..], g);
      if n == 0 {
        RemoveHead(rows);
      } else {
        FirstRowGoes(rows, g, n - 1);
        DropNextLeg(rows[1..], g, n - 1, next);
      }
    }
  }

  lemma RemoveHead(rows: seq<TxRow>)
    requires rows != []
    ensures IndexOf(rows, rows[0].id) == 0 && RemoveById(rows, rows[0].id) == rows[1..]
  {
  }

  lemma RemoveFromTail(r: TxRow, rest: seq<TxRow>, id: int)
    requires r.id != id && IndexOf(rest, id) < |rest|
    ensures IndexOf([r] + rest, id) == 1 + IndexOf(rest, id)
    ensures RemoveById([r] + rest, id) == [r] + RemoveById(rest, id)
  {
    assert ([r] + rest)[1..] == rest;
  }

  // ---------------------------------------------------------------------------------------------
  // The store
  // ---------------------------------------------------------------------------------------------

  /** `now` and `refused` are what `spec` promises; a refusal leaves the tables alone. */
  ghost predicate Meets(was: Db, spec: Result<Db, LedgerError>, refused: Option<LedgerError>, now: Db) {
    match spec
    case Ok(db) => refused == None && now == db
    case Err(e) => refused == Some(e) && now == was
  }

  lemma ResettleNone(db: Db)
    ensures Resettle(db, {}, {}) == db
  {
    assert ResettledPortfolios(db, {}, {}) == db.portfolios by {
      forall p | p in db.portfolios ensures ResettledPortfolio(db, p, {}, {}) == db.portfolios[p] {
        assert ResettledAssets(db, p, {}) == db.portfolios[p].assets;
      }
    }
  }

  lemma ResettleAbsent(db: Db, p: int, s: string)
    requires !HasAsset(db, p, s)
    ensures Resettle(db, {(p, s)}, {}) == db
  {
    forall q | q in db.portfolios ensures ResettledPortfolio(db, q, {(p, s)}, {}) == db.portfolios[q] {
      assert ResettledAssets(db, q, {(p, s)}) == db.portfolios[q].assets;
    }
    assert ResettledPortfolios(db, {(p, s)}, {}) == db.portfolios;
  }

  lemma ResettleTarget(db: Db, p: int, s: string)
    requires HasAsset(db, p, s)
    ensures Resettle(db, {(p, s)}, {})
         == WithAsset(db, p, s, AssetAt(db, p, s).(p := Project(AssetAt(db, p, s).lot, History(db.rows, p, s))))
  {
    hide Project, History;
    var a := AssetAt(db, p, s);
    var after := WithAsset(db, p, s, a.(p := Project(a.lot, History(db.rows, p, s))));
    forall q | q in db.portfolios ensures ResettledPortfolio(db, q, {(p, s)}, {}) == after.portfolios[q] {
      assert ResettledAssets(db, q, {(p, s)}) == after.portfolios[q].assets;
    }
    assert ResettledPortfolios(db, {(p, s)}, {}) == after.portfolios;
  }

  lemma ResettleTotal(db: Db, p: int)
    requires p in db.portfolios
    ensures Resettle(db, {}, {p})
         == db.(portfolios := db.portfolios[p := db.portfolios[p].(netDeposit := Total(NetDeposits(db.portfolios[p].assets)))])
  {
    hide Total;
    var after := db.portfolios[p := db.portfolios[p].(netDeposit := Total(NetDeposits(db.portfolios[p].assets)))];
    forall q | q in db.portfolios ensures ResettledPortfolio(db, q, {}, {p}) == after[q] {
      assert ResettledAssets(db, q, {}) == db.portfolios[q].assets;
    }
    assert ResettledPortfolios(db, {}, {p}) == after;
  }

  /** Recalculations in sequence are one recalculation of everything they name. */
  lemma ResettleThen(db: Db, t1: set<(int, string)>, p1: set<int>, t2: set<(int, string)>, p2: set<int>,
                     t: set<(int, string)>, totals: set<int>)
    requires forall x :: x in t2 && x.0 in p1 ==> x.0 in p2
    requires t == t1 + t2 && totals == p1 + p2
    ensures Resettle(Resettle(db, t1, p1), t2, p2) == Resettle(db, t, totals)
  {
    ResettleTwice(db, t1, p1, t2, p2);
  }

  lemma ResettleTotalAbsent(db: Db, p: int)
    requires p !in db.portfolios
    ensures Resettle(db, {}, {p}) == db
  {
    forall q | q in db.portfolios ensures ResettledPortfolio(db, q, {}, {p}) == db.portfolios[q] {
      assert ResettledAssets(db, q, {}) == db.portfolios[q].assets;
    }
    assert ResettledPortfolios(db, {}, {p}) == db.portfolios;
  }

  function LegTargets(legs: seq<TxRow>): set<(int, string)> {
    set r | r in legs && r.kind != Nft :: (r.portfolio, r.symbol)
  }

  function LegPortfolios(legs: seq<TxRow>): set<int> { set r | r in legs :: r.portfolio }

  lemma LegTargetsNext(legs: seq<TxRow>, n: nat)
    requires n < |legs|
    ensures LegTargets(legs[..n+1])
         == LegTargets(legs[..n]) + (if legs[n].kind != Nft then {(legs[n].portfolio, legs[n].symbol)} else {})
  {
    assert legs[..n+1] == legs[..n] + [legs[n]];
  }

  lemma NoTargets(db: Db)
    ensures Resettle(db, LegTargets([]), {}) == db
  {
    ResettleNone(db);
    assert LegTargets([]) == {};
  }

  lemma LegsCoverGroup(rows: seq<TxRow>, g: int)
    ensures LegTargets(Legs(rows, g)) == GroupTargets(rows, g)
    ensures LegPortfolios(Legs(rows, g)) == GroupPortfolios(rows, g)
  {
    hide Legs;
    forall r ensures r in Legs(rows, g) <==> r in rows && r.group == Some(g) {
      LegsMembers(rows, g, r);
    }
  }

  lemma ScanNext(db: Db, cat: Catalog, free: bool, p: int, st: Scan, lines: seq<CsvRow>, i: nat)
    requires i < |lines|
    ensures ScanRows(db, cat, free, p, st, lines, i)
         == ScanRows(db, cat, free, p, ScanRow(db, cat, free, p, st, i + 1, lines[i]), lines, i + 1)
  {
  }

  lemma ScanDone(db: Db, cat: Catalog, free: bool, p: int, st: Scan, lines: seq<CsvRow>)
    ensures ScanRows(db, cat, free, p, st, lines, |lines|) == st
  {
  }

  function Pairs(p: int, symbols: set<string>): set<(int, string)> { set s | s in symbols :: (p, s) }

  lemma WrittenNothing(db: Db, p: int)
    requires p in db.portfolios
    ensures Written(db, p, []) == db
  {
  }

  lemma InsertNext(db: Db, p: int, ins: seq<Prepared>, n: nat)
    requires p in db.portfolios && n < |ins|
    ensures InsertAll(db, p, ins[..n+1]) == InsertRow(InsertAll(db, p, ins[..n]), p, ins[n])
    ensures Touched(p, ins[..n+1]) == Touched(p, ins[..n]) + {(p, ins[n].tx.symbol)}
  {
    assert ins[..n+1] == ins[..n] + [ins[n]];
    InsertAllSnoc(db, p, ins[..n], ins[n]);
  }

  class LedgerStore {
    var portfolios: map<int, Portfolio>
    var rows: seq<TxRow>
    var nextId: int

    ghost function State(): Db
      reads this
    {
      Db(portfolios, rows, nextId)
    }

    ghost predicate Valid()
      reads this
    {
      IdsOk(rows, nextId)
    }

    /** Re-projects one asset row from its opening lot and its rows; connected wallets are left alone. */
    method RecalcAssetBalance(p: int, s: string)
      requires Valid()
      modifies this
      ensures Valid()
      ensures State() == Resettle(old(State()), {(p, s)}, {})
    {
      hide Resettle, Fold, History, Sort, Details, Project;
      if p !in portfolios || portfolios[p].kind == Connected || s !in portfolios[p].assets {
        ResettleAbsent(State(), p, s);
        return;
      }
      var asset := portfolios[p].assets[s];
      var events := Sort(Details(rows, Native, p, s) + Details(rows, Erc20, p, s));
      var projection := FoldEvents(asset.lot, events);
      DetailsSortToHistory(rows, nextId, p, s);
      ResettleTarget(State(), p, s);
      portfolios := portfolios[p := portfolios[p].(assets := portfolios[p].assets[s := asset.(p := projection)])];
    }

    /** The portfolio's net deposit becomes the sum over its assets. */
    method RecalcPortfolioNetDeposit(p: int)
      requires Valid()
      modifies this
      ensures Valid()
      ensures State() == Resettle(old(State()), {}, {p})
    {
      hide Resettle;
      if p !in portfolios {
        ResettleTotalAbsent(State(), p);
        return;
      }
      var assets := portfolios[p].assets;
      var total := SumNetDeposits(assets);
      ResettleTotal(State(), p);
      portfolios := portfolios[p := portfolios[p].(netDeposit := total)];
    }

    method Insert(r: TxRow)
      requires Valid()
      modifies this
      ensures Valid() && State() == Append(old(State()), r)
    {
      rows := rows + [r.(id := nextId)];
      nextId := nextId + 1;
    }

    /** The database's order of work after a row of one manual holding has changed. */
    method Recalculate(p: int, s: string)
      requires Valid()
      modifies this
      ensures Valid() && State() == Resettle(old(State()), {(p, s)}, {p})
    {
      hide Resettle;
      RecalcAssetBalance(p, s);
      RecalcPortfolioNetDeposit(p);
      ResettleThen(old(State()), {(p, s)}, {}, {}, {p}, {(p, s)}, {p});
    }

    method CreateTransaction(cat: Catalog, free: bool, market: real, p: int, b: NewTx) returns (refused: Option<LedgerError>)
      requires Valid() && p in portfolios
      modifies this
      ensures Valid()
      ensures Meets(old(State()), Ledger.CreateTransaction(old(State()), cat, free, market, p, b), refused, State())
    {
      hide Resettle;
      var assets, autoCreate := portfolios[p].assets, false;
      if portfolios[p].kind == Connected {
        return Some(ReadOnly);
      }
      if b.kind != Nft {
        if b.symbol !in cat {
          return Some(UnknownSymbol);
        }
        if b.dir == Buy {
          if b.symbol !in assets {
            if !RankAllowed(cat[b.symbol], free) {
              return Some(PlanLimit);
            }
            autoCreate := true;
          }
        } else if b.symbol !in assets {
          return Some(AssetNotInPortfolio);
        }
        if b.dir == Sell && b.amount > assets[b.symbol].p.balance {
          return Some(InsufficientBalance);
        }
      }
      var before := portfolios;
      if autoCreate {
        portfolios := portfolios[p := portfolios[p].(assets := assets[b.symbol := EMPTY_ASSET])];
      }
      if HashTaken(rows, p, b.hash) {
        portfolios := before;  // the unique index rejects the row and everything is rolled back
        return Some(HashDuplicate);
      }
      Insert(NewRow(0, p, b, market));
      if b.kind != Nft {
        Recalculate(p, b.symbol);
      }
      refused := None;
    }

    /** A patched row leaves one holding and may enter another. */
    method RecalculateBoth(p: int, s: string, s': string)
      requires Valid() && p in portfolios
      modifies this
      ensures Valid() && State() == Resettle(old(State()), {(p, s), (p, s')}, {p})
    {
      hide Resettle;
      ghost var mid := State();
      if s' != s {
        RecalcAssetBalance(p, s);
        Recalculate(p, s');
        ResettleThen(mid, {(p, s)}, {}, {(p, s')}, {p}, {(p, s), (p, s')}, {p});
      } else {
        Recalculate(p, s);
        assert {(p, s), (p, s')} == {(p, s)};
      }
    }

    method UpdateTransaction(cat: Catalog, market: real, p: int, id: int, b: Patch) returns (refused: Option<LedgerError>)
      requires Valid() && p in portfolios
      modifies this
      ensures Valid()
      ensures Meets(old(State()), Ledger.UpdateTransaction(old(State()), cat, market, p, id, b), refused, State())
    {
      hide Resettle, PatchedRow;
      if portfolios[p].kind == Connected {
        return Some(ReadOnly);
      }
      var i := IndexOf(rows, id);
      if i == |rows| || rows[i].portfolio != p {
        return Some(TransactionNotFound);
      }
      var was := rows[i];
      if was.group.Some? {
        return Some(TransferEditUnsupported);
      }
      if was.kind != Nft && b.symbol.Some? && b.symbol.value != was.symbol {
        if b.symbol.value !in cat {
          return Some(UnknownSymbol);
        }
        if b.symbol.value !in portfolios[p].assets {
          return Some(AssetNotInPortfolio);
        }
      }
      var balanceAffected := b.dir.Some? || b.amount.Some? || b.symbol.Some?;
      var usdAffected := b.amount.Some? || b.symbol.Some? || b.price.Some?;
      var now := PatchRow(was, b, usdAffected, market);
      rows := rows[i := now];
      if (balanceAffected || usdAffected) && was.kind != Nft {
        RecalculateBoth(p, was.symbol, now.symbol);
      }
      refused := None;
    }

    method DeleteTransaction(p: int, id: int) returns (refused: Option<LedgerError>)
      requires Valid() && p in portfolios
      modifies this
      ensures Valid()
      ensures Meets(old(State()), Ledger.DeleteTransaction(old(State()), p, id), refused, State())
    {
      hide Resettle;
      if portfolios[p].kind == Connected {
        return Some(ReadOnly);
      }
      var i := IndexOf(rows, id);
      if i == |rows| || rows[i].portfolio != p {
        return Some(TransactionNotFound);
      }
      var r := rows[i];
      if r.group.Some? {
        DeleteGroup(r.group.value);
        return None;
      }
      rows := rows[..i] + rows[i+1..];
      if r.kind != Nft {
        Recalculate(p, r.symbol);
      }
      refused := None;
    }

    method DeleteLegs(g: int)
      requires Valid()
      modifies this
      ensures Valid() && State() == old(State()).(rows := WithoutGroup(old(rows), g))
    {
      hide IndexOf, DropLegs, Legs, WithoutGroup;
      var legs, n := Legs(rows, g), 0;
      DropNoLegs(rows, g);
      while n < |legs|
        invariant 0 <= n <= |legs| && Valid()
        invariant State() == old(State()).(rows := DropLegs(old(rows), g, n))
      {
        DropNextLeg(old(rows), g, n, nextId);
        DropLegsIds(old(rows), g, n + 1, nextId);
        rows := RemoveById(rows, legs[n].id);
        n := n + 1;
      }
      AllLegsDropped(old(rows), g);
    }

    /** Deletes every leg of a transfer, then recalculates each leg's asset and each portfolio once. */
    method DeleteGroup(g: int)
      requires Valid()
      modifies this
      ensures Valid()
      ensures State() == Resettle(old(State()).(rows := WithoutGroup(old(rows), g)),
                                  GroupTargets(old(rows), g), GroupPortfolios(old(rows), g))
    {
      hide Resettle, Legs, WithoutGroup, LegTargets, LegPortfolios, GroupTargets, GroupPortfolios;
      var legs := Legs(rows, g);
      DeleteLegs(g);
      ghost var mid := State();
      RecalculateLegs(legs);
      RecalculateTotals(LegPortfolios(legs));
      ResettleThen(mid, LegTargets(legs), {}, {}, LegPortfolios(legs), LegTargets(legs), LegPortfolios(legs));
      LegsCoverGroup(old(rows), g);
    }

    method RecalculateTotals(ps: set<int>)
      requires Valid()
      modifies this
      ensures Valid() && State() == Resettle(old(State()), {}, ps)
    {
      hide Resettle;
      var left: set<int>, done: set<int> := ps, {};
      ResettleNone(State());
      while left != {}
        invariant left + done == ps && Valid()
        invariant State() == Resettle(old(State()), {}, done)
        decreases left
      {
        SomeNumber(left);
        var p :| p in left;
        RecalcPortfolioNetDeposit(p);
        ResettleThen(old(State()), {}, done, {}, {p}, {}, done + {p});
        left, done := left - {p}, done + {p};
      }
    }

    method RecalculateLegs(legs: seq<TxRow>)
      requires Valid()
      modifies this
      ensures Valid() && State() == Resettle(old(State()), LegTargets(legs), {})
    {
      hide Resettle, LegTargets;
      var n := 0;
      NoTargets(State());
      while n < |legs|
        invariant 0 <= n <= |legs| && Valid()
        invariant State() == Resettle(old(State()), LegTargets(legs[..n]), {})
      {
        LegTargetsNext(legs, n);
        if legs[n].kind != Nft {
          RecalcAssetBalance(legs[n].portfolio, legs[n].symbol);
          ResettleThen(old(State()), LegTargets(legs[..n]), {}, {(legs[n].portfolio, legs[n].symbol)}, {},
                       LegTargets(legs[..n+1]), {});
        } else {
          assert LegTargets(legs[..n+1]) == LegTargets(legs[..n]);
        }
        n := n + 1;
      }
      assert legs[..n] == legs;
    }

    method CreateTransfer(cat: Catalog, src: int, dst: int, s: string, amount: real, ts: int, g: int)
      returns (refused: Option<LedgerError>)
      requires Valid() && src in portfolios && amount > 0.0
      modifies this
      ensures Valid()
      ensures Meets(old(State()), Ledger.CreateTransfer(old(State()), cat, src, dst, s, amount, ts, g), refused, State())
    {
      hide Resettle, CarriedUsd;
      if portfolios[src].kind == Connected {
        return Some(ReadOnly);
      }
      if dst !in portfolios || portfolios[dst].owner != portfolios[src].owner {
        return Some(DestNotFound);
      }
      if dst == src || portfolios[dst].kind == Connected {
        return Some(InvalidTransferTarget);
      }
      if s !in cat {
        return Some(UnknownSymbol);
      }
      if s !in portfolios[src].assets || portfolios[src].assets[s].p.balance < amount {
        return Some(InsufficientBalance);
      }
      var usd := CarriedUsd(amount, portfolios[src].assets[s].p);
      if s !in portfolios[dst].assets {
        portfolios := portfolios[dst := portfolios[dst].(assets := portfolios[dst].assets[s := EMPTY_ASSET])];
      }
      Insert(Leg(src, s, Sell, amount, usd, ts, g));
      Insert(Leg(dst, s, Buy, amount, usd, ts, g));
      ghost var mid := State();
      Recalculate(src, s);
      Recalculate(dst, s);
      ResettleThen(mid, {(src, s)}, {src}, {(dst, s)}, {dst}, {(src, s), (dst, s)}, {src, dst});
      refused := None;
    }

    method AddAsset(cat: Catalog, free: bool, p: int, s: string, balance: real, mode: CostMode)
      returns (refused: Option<LedgerError>)
      requires Valid() && p in portfolios
      modifies this
      ensures Valid()
      ensures Meets(old(State()), Ledger.AddAsset(old(State()), cat, free, p, s, balance, mode), refused, State())
    {
      hide Resettle, OpeningCost;
      if portfolios[p].kind == Connected {
        return Some(ReadOnly);
      }
      if balance <= 0.0 {
        return Some(InvalidBalance);
      }
      if s !in cat {
        return Some(UnknownSymbol);
      }
      if !RankAllowed(cat[s], free) {
        return Some(PlanLimit);
      }
      if s in portfolios[p].assets {
        return Some(AssetAlreadyExists);
      }
      if mode.PriceMissing? {
        return Some(PriceUnavailable);
      }
      var asset := Asset(Lot(balance, OpeningCost(balance, mode)), ZERO);
      portfolios := portfolios[p := portfolios[p].(assets := portfolios[p].assets[s := asset])];
      Recalculate(p, s);
      refused := None;
    }

    method EditOpening(p: int, s: string, balance: Option<real>, mode: Option<CostMode>) returns (refused: Option<LedgerError>)
      requires Valid() && p in portfolios
      modifies this
      ensures Valid()
      ensures Meets(old(State()), Ledger.EditOpening(old(State()), p, s, balance, mode), refused, State())
    {
      hide Resettle, EditedLot;
      if portfolios[p].kind == Connected {
        return Some(ReadOnly);
      }
      if s !in portfolios[p].assets {
        return Some(AssetNotFound);
      }
      if balance.None? && mode.None? {
        return None;
      }
      var a := portfolios[p].assets[s];
      var b := balance.GetOr(a.lot.balance);
      if b <= 0.0 {
        return Some(InvalidBalance);
      }
      if mode == Some(PriceMissing) {
        return Some(PriceUnavailable);
      }
      var edited := a.(lot := EditedLot(a.lot, b, mode));
      portfolios := portfolios[p := portfolios[p].(assets := portfolios[p].assets[s := edited])];
      Recalculate(p, s);
      refused := None;
    }

    method RemoveAsset(p: int, s: string) returns (refused: Option<LedgerError>)
      requires Valid() && p in portfolios
      modifies this
      ensures Valid()
      ensures Meets(old(State()), Ledger.RemoveAsset(old(State()), p, s), refused, State())
    {
      hide Resettle;
      if portfolios[p].kind == Connected {
        return Some(ReadOnly);
      }
      if s !in portfolios[p].assets {
        return Some(AssetNotFound);
      }
      portfolios := portfolios[p := portfolios[p].(assets := portfolios[p].assets - {s})];
      RecalcPortfolioNetDeposit(p);
      refused := None;
    }

    /** The forward pass over the file: cells, duplicates, then the rules against the running balance. */
    method ForwardPass(cat: Catalog, free: bool, p: int, lines: seq<CsvRow>)
      returns (errors: seq<RowError>, prepared: seq<Prepared>)
      requires Valid() && p in portfolios
      ensures var st := ScanRows(State(), cat, free, p, StartScan(State(), p), lines, 0);
              errors == st.errors && prepared == st.prepared
    {
      hide ScanRows, ScanRow, CellErrors, CellsOk;
      var assets := portfolios[p].assets;
      var runningBalance := map s | s in assets :: assets[s].p.balance;
      var heldTokens, seenHashes := assets.Keys, {};
      errors, prepared := [], [];
      ghost var db := State();
      ghost var all := ScanRows(db, cat, free, p, StartScan(db, p), lines, 0);
      var i := 0;
      while i < |lines|
        invariant 0 <= i <= |lines|
        invariant ScanRows(db, cat, free, p, Scan(runningBalance, heldTokens, seenHashes, errors, prepared), lines, i) == all
      {
        var st := Scan(runningBalance, heldTokens, seenHashes, errors, prepared);
        ScanNext(db, cat, free, p, st, lines, i);
        var next := ScanLine(cat, free, p, st, i + 1, lines[i]);
        runningBalance, heldTokens, seenHashes := next.running, next.held, next.seen;
        errors, prepared := next.errors, next.prepared;
        i := i + 1;
      }
      ScanDone(db, cat, free, p, Scan(runningBalance, heldTokens, seenHashes, errors, prepared), lines);
    }

    /** One line of the forward pass. */
    method ScanLine(cat: Catalog, free: bool, p: int, st: Scan, row: nat, r: CsvRow) returns (next: Scan)
      requires Valid() && p in portfolios
      ensures next == ScanRow(State(), cat, free, p, st, row, r)
    {
      hide CellErrors, RowErrors;
      next := st;
      var bad := CheckCells(cat, row, r);
      if bad != [] {
        next := next.(errors := next.errors + bad);
        return;
      }
      if !r.textOk {
        next := next.(errors := next.errors + [RowError(row, "")]);
        return;
      }
      var tx := RowTx(r);
      if tx.hash.Some? && (HashTaken(rows, p, tx.hash) || tx.hash.value in next.seen) {
        next := next.(prepared := next.prepared + [Prepared(row, tx, false, true)]);
        return;
      }
      if tx.hash.Some? {
        next := next.(seen := next.seen + {tx.hash.value});
      }
      next := CheckRules(cat, free, next, row, tx);
    }

    /** Inserts the batch, then recalculates every touched token once and the portfolio total once. */
    method WriteBatch(p: int, ins: seq<Prepared>)
      requires Valid() && p in portfolios && ins != []
      modifies this
      ensures Valid() && State() == Written(old(State()), p, ins)
    {
      hide Resettle, InsertAll;
      var affected := InsertBatch(p, ins);
      var left, done := affected, {};
      ghost var mid := State();
      ResettleNone(mid);
      assert Pairs(p, {}) == {};
      while left != {}
        invariant left + done == affected && Valid()
        invariant State() == Resettle(mid, Pairs(p, done), {})
        decreases left
      {
        var s :| s in left;
        RecalcAssetBalance(p, s);
        assert Pairs(p, done + {s}) == Pairs(p, done) + {(p, s)};
        ResettleThen(mid, Pairs(p, done), {}, {(p, s)}, {}, Pairs(p, done + {s}), {});
        left, done := left - {s}, done + {s};
      }
      RecalcPortfolioNetDeposit(p);
      ResettleThen(mid, Touched(p, ins), {}, {}, {p}, Touched(p, ins), {p});
    }

    method InsertBatch(p: int, ins: seq<Prepared>) returns (affected: set<string>)
      requires Valid() && p in portfolios
      modifies this
      ensures Valid() && State() == InsertAll(old(State()), p, ins)
      ensures Pairs(p, affected) == Touched(p, ins)
    {
      affected := {};
      ghost var db := State();
      var n := 0;
      while n < |ins|
        invariant 0 <= n <= |ins| && Valid() && p in portfolios
        invariant State() == InsertAll(db, p, ins[..n])
        invariant Pairs(p, affected) == Touched(p, ins[..n])
      {
        var q := ins[n];
        if q.createAsset {
          portfolios := portfolios[p := portfolios[p].(assets := portfolios[p].assets[q.tx.symbol := EMPTY_ASSET])];
        }
        Insert(NewRow(0, p, q.tx, 0.0));
        affected := affected + {q.tx.symbol};
        InsertNext(db, p, ins, n);
        n := n + 1;
      }
      assert ins[..n] == ins;
    }

    method BulkCreateTransactions(cat: Catalog, free: bool, p: int, mode: Mode, lines: seq<CsvRow>)
      returns (r: Result<Summary, BulkError>)
      requires Valid() && p in portfolios
      modifies this
      ensures Valid()
      ensures match BulkCreate(old(State()), cat, free, p, mode, lines)
              case Ok(done) => r == Ok(done.1) && State() == done.0
              case Err(e) => r == Err(e) && State() == old(State())
    {
      hide ScanRows, StartScan, ToInsert, ErrorRows, Written;
      if portfolios[p].kind != Manual {
        return Err(NotManual);
      }
      if |lines| > BULK_ROW_CAP {
        return Err(TooManyRows);
      }
      var errors, prepared := ForwardPass(cat, free, p, lines);
      if mode == AllOrNothing && errors != [] {
        return Err(ValidationFailed(errors));
      }
      var ins := ToInsert(prepared);
      ToInsertShorter(prepared);
      var skipped := |prepared| - |ins| + (if mode == SkipInvalid then |ErrorRows(errors)| else 0);
      WrittenNothing(State(), p);
      if ins != [] {
        WriteBatch(p, ins);
      }
      r := Ok(Summary(|ins|, skipped, errors));
    }

    /** Any request: the tables move as in the runs that the ledger's invariants are proved over. */
    method Serve(cat: Catalog, t: Call)
      requires Valid()
      modifies this
      ensures Valid() && State() == Apply(old(State()), cat, t)
    {
      hide Ledger.CreateTransaction, Ledger.UpdateTransaction, Ledger.DeleteTransaction, BulkCreate,
           Ledger.CreateTransfer, Ledger.AddAsset, Ledger.EditOpening, Ledger.RemoveAsset;
      if t.p !in portfolios {
        return;
      }
      match t.request {
        case Create(b, free, market) => var _ := CreateTransaction(cat, free, market, t.p, b);
        case Update(id, patch, market) => var _ := UpdateTransaction(cat, market, t.p, id, patch);
        case Delete(id) => var _ := DeleteTransaction(t.p, id);
        case Import(mode, lines, free) => var _ := BulkCreateTransactions(cat, free, t.p, mode, lines);
        case Move(dst, s, amount, ts, g) =>
          if amount > 0.0 {
            var _ := CreateTransfer(cat, t.p, dst, s, amount, ts, g);
          }
        case Open(s, balance, mode, free) => var _ := AddAsset(cat, free, t.p, s, balance, mode);
        case Edit(s, balance, mode) => var _ := EditOpening(t.p, s, balance, mode);
        case Remove(s) => var _ := RemoveAsset(t.p, s);
      }
    }
  }

  /** The row's base columns, then the columns of its detail. */
  method PatchRow(was: TxRow, b: Patch, usdAffected: bool, market: real) returns (now: TxRow)
    requires usdAffected <==> b.amount.Some? || b.symbol.Some? || b.price.Some?
    ensures now == PatchedRow(was, b, market) && now.id == was.id
  {
    now := was.(dir := b.dir.GetOr(was.dir), ts := b.ts.GetOr(was.ts));
    if was.kind != Nft {
      now := now.(amount := b.amount.GetOr(now.amount), symbol := b.symbol.GetOr(now.symbol),
                  price := if b.price.Some? then b.price else now.price);
      if usdAffected {
        now := now.(usd := UsdValue(now.amount, now.price, market));
      }
    }
  }

  /** The cell checks, column by column. */
  method CheckCells(cat: Catalog, row: nat, r: CsvRow) returns (errors: seq<RowError>)
    ensures errors == RowErrors(row, CellErrors(cat, r))
    ensures errors == [] <==> CellsOk(cat, r)
  {
    NoCellErrors(cat, r);
    var columns := if !(r.kind.TypeBuy? || r.kind.TypeSell?) then ["type"] else [];
    columns := columns + if SymbolOk(cat, r.symbol) then [] else ["symbol"];
    columns := columns + if NumOk(r.amount, true) then [] else ["amount"];
    columns := columns + if NumOk(r.price, true) then [] else ["price"];
    columns := columns + if r.date.Day? then [] else ["date"];
    columns := columns + if r.gasFee.NumBlank? || NumOk(r.gasFee, false) then [] else ["gas_fee"];
    errors := RowErrors(row, columns);
  }

  /** The rules of a single create, against the running balance instead of the stored one. */
  method CheckRules(cat: Catalog, free: bool, st: Scan, row: nat, tx: NewTx) returns (next: Scan)
    requires tx.symbol in cat
    ensures next == Judge(cat, free, st, row, tx)
  {
    next := st;
    var createAsset, held := false, tx.symbol in st.held;
    if tx.dir == Buy {
      if !held {
        if !RankAllowed(cat[tx.symbol], free) {
          next := next.(errors := next.errors + [RowError(row, "symbol")]);
          return;
        }
        createAsset := true;
        next := next.(held := next.held + {tx.symbol}, running := next.running[tx.symbol := 0.0]);
      }
      next := next.(running := next.running[tx.symbol := Balance(next, tx.symbol) + tx.amount]);
    } else {
      if !held {
        next := next.(errors := next.errors + [RowError(row, "symbol")]);
        return;
      }
      var bal := Balance(st, tx.symbol);
      if tx.amount > bal {
        next := next.(errors := next.errors + [RowError(row, "amount")]);
        return;
      }
      next := next.(running := next.running[tx.symbol := bal - tx.amount]);
    }
    next := next.(prepared := next.prepared + [Prepared(row, tx, createAsset, false)]);
  }

  method SumNetDeposits(assets: map<string, Asset>) returns (total: real)
    ensures total == Total(NetDeposits(assets))
  {
    hide Total;
    var rest := assets;
    total := 0.0;
    while rest != map[]
      invariant total + Total(NetDeposits(rest)) == Total(NetDeposits(assets))
      decreases |rest|
    {
      var s :| s in rest;
      TakeEntry(NetDeposits(rest), NetDeposits(rest - {s}), s);
      total := total + rest[s].p.netDeposit;
      rest := rest - {s};
    }
    TotalNone(NetDeposits(map[]));
  }

  lemma FoldNext(a: Acc, es: seq<Event>, i: nat)
    requires i < |es|
    ensures Fold(a, es[i..]) == Fold(Step(a, es[i]), es[i+1..])
  {
    assert es[i..][1..] == es[i+1..];
  }

  /** A sale of cost-known units, with its intermediate values named. */
  lemma SellKnown(a: Acc, e: Event, avg: real, sold: real, price: real)
    requires e.dir == Sell && a.known > 0.0
    requires avg == a.cost / a.known && sold == Min(e.amount, a.known) && price == UnitPrice(e)
    ensures Step(a, e) == Acc(a.qty - e.amount, a.known - sold, a.cost - sold * avg,
                              if e.isTransfer then a.realized else a.realized + sold * (price - avg), a.netDeposit - e.usd)
  {
  }

  lemma OtherSteps(a: Acc, e: Event)
    ensures e.dir == Buy ==> Step(a, e) == Acc(a.qty + e.amount, a.known + e.amount, a.cost + e.usd, a.realized, a.netDeposit + e.usd)
    ensures e.dir == Sell && a.known <= 0.0 ==> Step(a, e) == a.(qty := a.qty - e.amount, netDeposit := a.netDeposit - e.usd)
    ensures e.dir == Transfer ==> Step(a, e) == a
  {
  }

  /** The five coupled accumulators, event by event. */
  method FoldEvents(lot: Lot, events: seq<Event>) returns (p: Projection)
    ensures p == Project(lot, events)
  {
    hide Fold, Step;
    var qty := lot.balance;
    var costKnownQty := if lot.cost.Some? then lot.balance else 0.0;
    var totalCost := lot.cost.GetOr(0.0);
    var realized := 0.0;
    var netDeposit := lot.cost.GetOr(0.0);
    var i := 0;
    while i < |events|
      invariant 0 <= i <= |events|
      invariant Fold(Acc(qty, costKnownQty, totalCost, realized, netDeposit), events[i..]) == Fold(Start(lot), events)
    {
      var e := events[i];
      ghost var acc := Acc(qty, costKnownQty, totalCost, realized, netDeposit);
      FoldNext(acc, events, i);
      OtherSteps(acc, e);
      if e.dir == Buy {
        qty := qty + e.amount;
        costKnownQty := costKnownQty + e.amount;
        totalCost := totalCost + e.usd;
        netDeposit := netDeposit + e.usd;
      } else if e.dir == Sell {
        if costKnownQty > 0.0 {
          var avg := totalCost / costKnownQty;
          var sold := Min(e.amount, costKnownQty);
          var price := if e.amount > 0.0 then e.usd / e.amount else 0.0;
          SellKnown(acc, e, avg, sold, price);
          if !e.isTransfer {
            realized := realized + sold * (price - avg);
          }
          costKnownQty := costKnownQty - sold;
          totalCost := totalCost - sold * avg;
        }
        qty := qty - e.amount;
        netDeposit := netDeposit - e.usd;
      }
      assert Acc(qty, costKnownQty, totalCost, realized, netDeposit) == Step(acc, e);
      i := i + 1;
    }
    FoldNone(Acc(qty, costKnownQty, totalCost, realized, netDeposit), events);
    p := Projection(qty, netDeposit, realized, if costKnownQty > 0.0 then Some(totalCost / costKnownQty) else None, totalCost);
  }

  lemma FoldNone(a: Acc, es: seq<Event>)
    ensures Fold(a, es[|es|..]) == a
  {
  }
}
