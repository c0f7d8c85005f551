/**
  Balances of a connected wallet: combining what the providers answer
  (fetchWalletSummaryForSync in src/modules/wallet-data/index.ts) and writing a verified summary or
  leaving the rows alone (src/modules/wallet-data/sync.ts).
 */
module ConnectedSync {
  import opened Options
  import opened Sets
  import opened TokenCatalog

  /** One provider's answer; `Found` carries a summary, `Failed` is an error or an answer without one. */
  datatype Answer = Found(tokens: seq<SummaryToken>) | NoHoldings | Failed

  /** A provider in priority order; an unusable one is not configured or lacks the chain. */
  datatype Provider = Provider(usable: bool, answer: Answer)

  datatype Held = Held(token: int, balance: real)

  datatype Cost = Cost(avgCost: Option<real>, realized: real)

  datatype Row = Row(balance: real, avgCost: Option<real>, costBasis: real, realized: real, netDeposit: real)

  const NEW_ROW := Row(0.0, None, 0.0, 0.0, 0.0)

  // ---------------------------------------------------------------------------------------------
  // Combining the providers
  // ---------------------------------------------------------------------------------------------

  ghost predicate Answers(ps: seq<Provider>, i: int, a: Answer) { 0 <= i < |ps| && ps[i].usable && ps[i].answer == a }

  ghost predicate FirstFound(ps: seq<Provider>, i: int, tokens: seq<SummaryToken>) {
    Answers(ps, i, Found(tokens)) && forall j :: 0 <= j < i ==> !(ps[j].usable && ps[j].answer.Found?)
  }

  ghost predicate NoneFound(ps: seq<Provider>) { forall i :: 0 <= i < |ps| ==> !(ps[i].usable && ps[i].answer.Found?) }

  /** Empty means that somebody saw an empty wallet and nobody failed to look. */
  ghost predicate VerifiedEmpty(ps: seq<Provider>) {
    NoneFound(ps) && (exists i :: Answers(ps, i, NoHoldings)) && forall i :: !Answers(ps, i, Failed)
  }

  /** What the answers add up to. */
  ghost predicate Combines(ps: seq<Provider>, r: Answer) {
    match r
    case Found(tokens) => exists i :: FirstFound(ps, i, tokens)
    case NoHoldings => VerifiedEmpty(ps)
    case Failed => NoneFound(ps) && !VerifiedEmpty(ps)
  }

  method FetchWalletSummaryForSync(ps: seq<Provider>) returns (r: Answer)
    ensures Combines(ps, r)
  {
    var sawEmpty, sawError := false, false;
    var i := 0;
    while i < |ps|
      invariant 0 <= i <= |ps|
      invariant forall j :: 0 <= j < i ==> !(ps[j].usable && ps[j].answer.Found?)
      invariant sawEmpty <==> exists j :: j < i && Answers(ps, j, NoHoldings)
      invariant sawError <==> exists j :: j < i && Answers(ps, j, Failed)
    {
      if ps[i].usable {
        match ps[i].answer {
          case Found(tokens) =>
            assert FirstFound(ps, i, tokens);
            return ps[i].answer;
          case NoHoldings =>
            assert Answers(ps, i, NoHoldings);
            sawEmpty := true;
          case Failed =>
            assert Answers(ps, i, Failed);
            sawError := true;
        }
      }
      i := i + 1;
    }
    r := if sawEmpty && !sawError then NoHoldings else Failed;
  }

  /** The answers determine the outcome: one reading of them is as good as any other. */
  lemma CombinesOneWay(ps: seq<Provider>, a: Answer, b: Answer)
    requires Combines(ps, a) && Combines(ps, b)
    ensures a == b
  {
    if a.Found? && b.Found? {
      var i :| FirstFound(ps, i, a.tokens);
      var j :| FirstFound(ps, j, b.tokens);
      assert i == j;
    }
  }

  // ---------------------------------------------------------------------------------------------
  // Writing the balances
  // ---------------------------------------------------------------------------------------------

  /** The last entry of a token wins; an absent token has 0. */
  function BalanceOf(held: seq<Held>, token: int): real {
    if held == [] then 0.0
    else if held[|held|-1].token == token then held[|held|-1].balance
    else BalanceOf(held[..|held|-1], token)
  }

  function Tokens(held: seq<Held>): set<int> { set h | h in held :: h.token }

  function Named(held: seq<Held>, cost: Option<map<int, Cost>>): set<int> {
    Tokens(held) + (if cost.Some? then cost.value.Keys else {})
  }

  /** The columns after a sync with a cost map: only held units carry an average cost. */
  function CostedRow(balance: real, c: Option<Cost>): Row {
    var avg := if c.Some? && balance > 0.0 then c.value.avgCost else None;
    Row(balance, avg, if avg.Some? then avg.value * balance else 0.0, if c.Some? then c.value.realized else 0.0, 0.0)
  }

  function CostOf(cost: map<int, Cost>, token: int): Option<Cost> {
    if token in cost then Some(cost[token]) else None
  }

  function RowOf(rows: map<int, Row>, token: int): Row { if token in rows then rows[token] else NEW_ROW }

  function NewRow(rows: map<int, Row>, held: seq<Held>, cost: Option<map<int, Cost>>, token: int): Row {
    match cost
    case Some(c) => CostedRow(BalanceOf(held, token), CostOf(c, token))
    case None => RowOf(rows, token).(balance := BalanceOf(held, token))
  }

  /** Every old and every named token gets the summary's balance, and its cost if there is a cost map. */
  function SetBalances(rows: map<int, Row>, held: seq<Held>, cost: Option<map<int, Cost>>): map<int, Row> {
    map t | t in rows.Keys + Named(held, cost) :: NewRow(rows, held, cost, t)
  }

  /** The tokens of a summary that resolve to a catalog row, in order. */
  function HeldUpTo(cat: Catalog, ts: seq<SummaryToken>, k: nat): seq<Held>
    requires k <= |ts|
  {
    if k == 0 then []
    else HeldUpTo(cat, ts, k - 1) + HeldOf(IdAt(cat, ts, k - 1), ts[k-1])
  }

  function HeldOf(id: Option<nat>, t: SummaryToken): seq<Held> {
    if id.Some? then [Held(id.value, t.balance)] else []
  }

  function Resolved(cat: Catalog, ts: seq<SummaryToken>): seq<Held> { HeldUpTo(cat, ts, |ts|) }

  /** The holdings to write; None when the answer is unverified or a token does not resolve. */
  function Verified(cat: Catalog, answer: Answer): Option<seq<Held>> {
    match answer
    case Failed => None
    case NoHoldings => Some([])
    case Found(ts) => if |Resolved(cat, ts)| == |ts| then Some(Resolved(cat, ts)) else None
  }

  function CatalogAfter(cat: Catalog, answer: Answer): Catalog {
    if answer.Found? then FinalCatalog(cat, answer.tokens) else cat
  }

  /** A portfolio's asset rows and the catalog. */
  datatype State = State(rows: map<int, Row>, cat: Catalog)

  /** A sync, or a balance refresh when it carries no cost map; skipped without verified holdings. */
  function Synced(s: State, answer: Answer, cost: Option<map<int, Cost>>): State {
    var held := Verified(s.cat, answer);
    State(if held.Some? then SetBalances(s.rows, held.value, cost) else s.rows, CatalogAfter(s.cat, answer))
  }

  // ---------------------------------------------------------------------------------------------
  // Doing it twice
  // ---------------------------------------------------------------------------------------------

  lemma {:induction false} HeldInOrder(cat: Catalog, ts: seq<SummaryToken>, k: nat)
    requires k <= |ts|
    ensures |HeldUpTo(cat, ts, k)| <= k
    ensures |HeldUpTo(cat, ts, k)| == k <==> forall i :: 0 <= i < k ==> IdAt(cat, ts, i).Some?
    ensures |HeldUpTo(cat, ts, k)| == k ==>
      forall i :: 0 <= i < k ==> HeldUpTo(cat, ts, k)[i] == Held(IdAt(cat, ts, i).value, ts[i].balance)
  {
    hide IdAt;
    if k > 0 {
      HeldInOrder(cat, ts, k - 1);
      assert IdAt(cat, ts, k - 1) == IdAt(cat, ts, k - 1);
    }
  }

  /** Applying the same summary and cost map again changes nothing. */
  lemma SetTwice(rows: map<int, Row>, held: seq<Held>, cost: Option<map<int, Cost>>)
    ensures SetBalances(SetBalances(rows, held, cost), held, cost) == SetBalances(rows, held, cost)
  {
  }

  /**
    Repeating a sync or a refresh whose summary was written changes neither rows nor catalog, as long as
    no token's contract was taken over after that token was matched by symbol.
   */
  lemma SyncTwice(s: State, answer: Answer, cost: Option<map<int, Cost>>)
    requires UniqueSymbols(s.cat)
    requires answer.Found? ==> Complete(s.cat, answer.tokens) && NoLateContract(s.cat, answer.tokens)
    ensures Synced(Synced(s, answer, cost), answer, cost) == Synced(s, answer, cost)
  {
    hide IdAt, Resolve, SetBalances, NoLateContract;
    if answer.Found? {
      var ts := answer.tokens;
      var after := FinalCatalog(s.cat, ts);
      SameRowsAgainIff(s.cat, ts);
      HeldInOrder(s.cat, ts, |ts|);
      HeldInOrder(after, ts, |ts|);
      assert forall k :: 0 <= k < |ts| ==> IdAt(after, ts, k) == IdAt(s.cat, ts, k);
      assert Resolved(after, ts) == Resolved(s.cat, ts);
      SetTwice(s.rows, Resolved(s.cat, ts), cost);
    } else if answer.NoHoldings? {
      SetTwice(s.rows, [], cost);
    }
  }

  // ---------------------------------------------------------------------------------------------
  // The cost columns over a run
  // ---------------------------------------------------------------------------------------------

  datatype Call = Call(answer: Answer, cost: Option<map<int, Cost>>)

  function Run(s: State, cs: seq<Call>): State {
    if cs == [] then s else Synced(Run(s, cs[..|cs|-1]), cs[|cs|-1].answer, cs[|cs|-1].cost)
  }

  /** The rows as the last call that wrote a cost map left them, or the first rows of all. */
  function LastCosted(s: State, cs: seq<Call>): map<int, Row> {
    if cs == [] then s.rows
    else
      var c := cs[|cs|-1];
      if c.cost.Some? && Verified(Run(s, cs[..|cs|-1]).cat, c.answer).Some? then Run(s, cs).rows
      else LastCosted(s, cs[..|cs|-1])
  }

  /** A row is worth its average cost per unit. */
  predicate CostExact(r: Row) { r.costBasis == r.avgCost.GetOr(0.0) * r.balance }

  ghost predicate AllExact(rows: map<int, Row>) { forall t :: t in rows ==> CostExact(rows[t]) }

  lemma {:induction false} SinceLastCosted(s: State, cs: seq<Call>)
    requires AllExact(s.rows)
    ensures AllExact(LastCosted(s, cs)) && LastCosted(s, cs).Keys <= Run(s, cs).rows.Keys
    ensures forall t :: t in Run(s, cs).rows ==>
      Run(s, cs).rows[t] == RowOf(LastCosted(s, cs), t).(balance := Run(s, cs).rows[t].balance)
  {
    hide Verified, CatalogAfter, BalanceOf, Tokens;
    if cs != [] {
      SinceLastCosted(s, cs[..|cs|-1]);
    }
  }

  /**
    In every run of syncs and balance refreshes a row differs from the last written sync with a cost map
    in its balance alone. So its cost basis is its average cost times its balance exactly when that
    balance is back or no cost is known, and an average cost stands on an empty row exactly when the sync
    had one and the wallet has sold out since.
   */
  lemma CostExactIff(s: State, cs: seq<Call>, token: int)
    requires AllExact(s.rows) && token in Run(s, cs).rows
    ensures var r, base := Run(s, cs).rows[token], RowOf(LastCosted(s, cs), token);
            && r == base.(balance := r.balance)
            && (CostExact(r) <==> r.balance == base.balance || base.avgCost.GetOr(0.0) == 0.0)
            && (r.avgCost.Some? && r.balance <= 0.0 <==> base.avgCost.Some? && r.balance <= 0.0)
  {
    hide Run, LastCosted;
    SinceLastCosted(s, cs);
    var r, base := Run(s, cs).rows[token], RowOf(LastCosted(s, cs), token);
    var avg := base.avgCost.GetOr(0.0);
    assert base.costBasis == avg * base.balance;
    if avg * r.balance == avg * base.balance && avg != 0.0 {
      assert avg * (r.balance - base.balance) == 0.0;
    }
  }

  /** Unrealized plus realized gain of a row, as the portfolio reports it. */
  function Gain(r: Row, price: real): real {
    r.realized + if r.avgCost.Some? then r.balance * (price - r.avgCost.value) else 0.0
  }

  /** What the provider's report of a sync says: `units` were held then, `now` are held today. */
  function ReportedGain(cost: map<int, Cost>, token: int, units: real, now: real, price: real): real {
    if token !in cost then 0.0
    else
      var c := cost[token];
      c.realized + if c.avgCost.Some? && units > 0.0 then now * (price - c.avgCost.value) else 0.0
  }

  lemma {:induction false} CostlessKeeps(s: State, cs: seq<Call>)
    requires forall i :: 0 <= i < |cs| ==> cs[i].cost.None?
    ensures s.rows.Keys <= Run(s, cs).rows.Keys
    ensures forall t :: t in Run(s, cs).rows ==>
      Run(s, cs).rows[t] == RowOf(s.rows, t).(balance := Run(s, cs).rows[t].balance)
  {
    hide Verified, CatalogAfter, BalanceOf, Tokens;
    if cs != [] {
      CostlessKeeps(s, cs[..|cs|-1]);
    }
  }

  /**
    Until the next sync with a cost map, whatever is refreshed in between, every token shows the gain of
    the provider's report: its realized gain, and its units of today valued against its average cost if
    it was held at the sync. Tokens the report does not name show none.
   */
  lemma GainIsReported(s: State, answer: Answer, cost: map<int, Cost>, cs: seq<Call>, token: int, price: real)
    requires Verified(s.cat, answer).Some? && forall i :: 0 <= i < |cs| ==> cs[i].cost.None?
    ensures var rows, units := Run(Synced(s, answer, Some(cost)), cs).rows, BalanceOf(Verified(s.cat, answer).value, token);
            && (token in cost ==> token in rows)
            && (token in rows ==>
                  && Gain(rows[token], price) == ReportedGain(cost, token, units, rows[token].balance, price)
                  && (rows[token].avgCost.Some? <==> token in cost && cost[token].avgCost.Some? && units > 0.0)
                  && rows[token].netDeposit == 0.0)
  {
    hide Run, Verified, CatalogAfter, BalanceOf;
    CostlessKeeps(Synced(s, answer, Some(cost)), cs);
  }

  // ---------------------------------------------------------------------------------------------
  // What a sync and a refresh guarantee
  // ---------------------------------------------------------------------------------------------

  // The balances equal the summary, token by token ...

  ghost predicate MatchesSummary(rows: map<int, Row>, cat: Catalog, ts: seq<SummaryToken>) {
    && (forall k :: 0 <= k < |ts| ==> HasBalance(rows, IdAt(cat, ts, k), ts[k].balance))
    && forall id :: id in rows && (forall k :: 0 <= k < |ts| ==> IdAt(cat, ts, k) != Some(id)) ==> rows[id].balance == 0.0
  }

  predicate HasBalance(rows: map<int, Row>, id: Option<nat>, balance: real) {
    id.Some? && id.value in rows && rows[id.value].balance == balance
  }

  /** ... unless two of its tokens have one ticker and different balances. */
  ghost predicate Unambiguous(cat: Catalog, ts: seq<SummaryToken>) {
    forall i, j :: 0 <= i < |ts| && 0 <= j < |ts| && TickerAt(cat, ts, i) == TickerAt(cat, ts, j) ==>
      ts[i].balance == ts[j].balance
  }

  function TickerAt(cat: Catalog, ts: seq<SummaryToken>, k: nat): string
    requires k < |ts|
  {
    Ticker(CatalogAt(cat, ts, k), ts[k])
  }

  lemma {:induction false} BalanceOfLast(held: seq<Held>, token: int)
    ensures token in Tokens(held) ==> Held(token, BalanceOf(held, token)) in held
    ensures token !in Tokens(held) ==> BalanceOf(held, token) == 0.0
  {
    if held != [] {
      BalanceOfLast(held[..|held|-1], token);
      assert held == held[..|held|-1] + [held[|held|-1]];
    }
  }

  /** Exactly the unambiguous summaries are written faithfully. */
  lemma SyncMatchesIff(s: State, ts: seq<SummaryToken>, cost: Option<map<int, Cost>>)
    requires UniqueSymbols(s.cat) && Complete(s.cat, ts)
    ensures MatchesSummary(Synced(s, Found(ts), cost).rows, s.cat, ts) <==> Unambiguous(s.cat, ts)
  {
    hide IdAt, HeldUpTo, BalanceOf, TickerAt, CatalogAfter;
    var held := Resolved(s.cat, ts);
    HeldInOrder(s.cat, ts, |ts|);
    assert forall k :: 0 <= k < |ts| ==> IdAt(s.cat, ts, k).Some?;
    var after := SetBalances(s.rows, held, cost);
    forall id ensures id in after ==> after[id].balance == BalanceOf(held, id) {
    }
    forall k | 0 <= k < |ts| ensures IdAt(s.cat, ts, k).value in after {
      assert held[k] in held;
    }
    forall i, j | 0 <= i < |ts| && 0 <= j < |ts|
      ensures TickerAt(s.cat, ts, i) == TickerAt(s.cat, ts, j) <==> IdAt(s.cat, ts, i) == IdAt(s.cat, ts, j)
    {
      TickersMeet(s.cat, ts, i, j);
    }
    if Unambiguous(s.cat, ts) {
      forall k | 0 <= k < |ts| ensures BalanceOf(held, IdAt(s.cat, ts, k).value) == ts[k].balance {
        BalanceOfLast(held, IdAt(s.cat, ts, k).value);
        assert held[k] in held;
      }
    }
    forall id | id in after && forall k :: 0 <= k < |ts| ==> IdAt(s.cat, ts, k) != Some(id) ensures after[id].balance == 0.0 {
      BalanceOfLast(held, id);
    }
  }

  lemma TickersMeet(cat: Catalog, ts: seq<SummaryToken>, i: nat, j: nat)
    requires UniqueSymbols(cat) && Complete(cat, ts) && i < |ts| && j < |ts|
    ensures TickerAt(cat, ts, i) == TickerAt(cat, ts, j) <==> IdAt(cat, ts, i) == IdAt(cat, ts, j)
  {
    SameRowIffSameTicker(cat, ts, i, j);
  }

  /** Everything is cleared only on a verified empty wallet, as long as a summary names some token. */
  lemma ClearsOnlyWhenEmpty(ps: seq<Provider>, answer: Answer, s: State, cost: Option<map<int, Cost>>)
    requires Combines(ps, answer)
    requires forall i :: 0 <= i < |ps| && ps[i].answer.Found? ==> ps[i].answer.tokens != []
    ensures var after := Synced(s, answer, cost).rows;
            after != s.rows && (forall id :: id in after ==> after[id].balance == 0.0) ==> VerifiedEmpty(ps)
  {
    hide BalanceOf, HeldUpTo, CatalogAfter;
    var after := Synced(s, answer, cost).rows;
    if answer.Found? && after != s.rows {
      var i :| FirstFound(ps, i, answer.tokens);
      var ts := ps[i].answer.tokens;
      var held := Resolved(s.cat, ts);
      HeldInOrder(s.cat, ts, |ts|);
      var k := |ts| - 1;
      assert held[k] == Held(IdAt(s.cat, ts, k).value, ts[k].balance) && held[k] in held;
      BalanceOfPositive(held, held[k].token);
      assert after[held[k].token].balance == BalanceOf(held, held[k].token);
    }
  }

  /** A held row of a complete summary has units. */
  lemma {:induction false} BalanceOfPositive(held: seq<Held>, token: int)
    requires token in Tokens(held) && forall h :: h in held ==> h.balance > 0.0
    ensures BalanceOf(held, token) > 0.0
  {
    BalanceOfLast(held, token);
  }

  // ---------------------------------------------------------------------------------------------
  // The asset rows as the sync updates them
  // ---------------------------------------------------------------------------------------------

  /** Rows part of the way through: the tokens in `done` are written, the others untouched. */
  ghost predicate Partly(was: map<int, Row>, now: map<int, Row>, done: set<int>, held: seq<Held>, cost: Option<map<int, Cost>>) {
    && now.Keys == was.Keys + done
    && forall t :: t in now ==> now[t] == if t in done then NewRow(was, held, cost, t) else was[t]
  }

  class ConnectedStore {
    var assets: map<int, Row>
    var catalog: Catalog

    constructor (cat: Catalog)
      ensures assets == map[] && catalog == cat
    {
      assets, catalog := map[], cat;
    }

    method SetConnectedBalances(held: seq<Held>, cost: Option<map<int, Cost>>) returns (count: nat)
      modifies this
      ensures assets == SetBalances(old(assets), held, cost) && catalog == old(catalog) && count == |held|
    {
      hide BalanceOf, Tokens, Partly;
      ghost var was := assets;
      NothingWritten(was, held, cost);
      var heldById := IndexHeld(held);
      var ids := heldById.Keys + (if cost.Some? then cost.value.Keys else {});
      var left := ids;
      while left != {}
        invariant left <= ids && Partly(was, assets, ids - left, held, cost)
        invariant catalog == old(catalog)
        decreases left
      {
        SomeNumber(left);
        var token :| token in left;
        var balance := if token in heldById then heldById[token] else 0.0;
        OneWritten(was, assets, ids - left, held, cost, token);
        assert ids - (left - {token}) == ids - left + {token};
        if cost.Some? {
          assets := assets[token := CostedRow(balance, CostOf(cost.value, token))];
        } else {
          assets := assets[token := RowOf(assets, token).(balance := balance)];
        }
        left := left - {token};
      }
      assert ids - left == ids;
      ghost var mid := assets;
      ZeroRest(was, mid, ids, held, cost);
      assets := map t | t in assets ::
        if t in ids then assets[t] else if cost.Some? then NEW_ROW else assets[t].(balance := 0.0);
      assert assets == Zeroed(mid, ids, cost);
      count := |held|;
    }

    /** The row of one usable token: by contract, then by symbol, else a new one. */
    method ResolveOrCreateToken(t: SummaryToken) returns (id: Option<nat>)
      requires Usable(t)
      modifies this
      ensures (catalog, id) == Resolve(old(catalog), t) && assets == old(assets)
    {
      var c := Contract(t);
      id := ByContract(catalog, c);
      if id.None? {
        id := BySymbol(catalog, t.symbol);
        if id.Some? {
          if c.Some? && catalog[id.value].contract.None? {
            if !Storable(c) {
              return None;
            }
            catalog := catalog[id.value := catalog[id.value].(contract := c)];
          }
        } else if Storable(Some(t.symbol)) && Storable(c) {
          id := Some(|catalog|);
          catalog := catalog + [Listing(t.symbol, c)];
        }
      }
    }

    /** Token by token, skipping what cannot be resolved. */
    method ResolveHeldTokens(ts: seq<SummaryToken>) returns (held: seq<Held>)
      modifies this
      ensures held == Resolved(old(catalog), ts) && catalog == FinalCatalog(old(catalog), ts)
      ensures assets == old(assets)
    {
      hide Resolve, Usable;
      held := [];
      var k := 0;
      while k < |ts|
        invariant 0 <= k <= |ts| && held == HeldUpTo(old(catalog), ts, k)
        invariant catalog == CatalogAt(old(catalog), ts, k) && assets == old(assets)
      {
        UnusableIsSkipped(catalog, ts[k]);
        if Usable(ts[k]) {
          var id := ResolveOrCreateToken(ts[k]);
          held := held + HeldOf(id, ts[k]);
        }
        k := k + 1;
      }
    }

    /**
      What a sync and the refresh after a webhook do with the rows: nothing is written unless the
      holdings were verified and resolved.
     */
    method SyncHoldings(ps: seq<Provider>, cost: Option<map<int, Cost>>) returns (ghost answer: Answer)
      modifies this
      ensures Combines(ps, answer) && State(assets, catalog) == Synced(old(State(assets, catalog)), answer, cost)
    {
      hide SetBalances, HeldUpTo, FinalCatalog;
      var r := FetchWalletSummaryForSync(ps);
      answer := r;
      if r.Failed? {
        return;
      }
      var ts := if r.Found? then r.tokens else [];
      var held := ResolveHeldTokens(ts);
      EmptyPass(old(catalog));
      if |held| == |ts| {
        var _ := SetConnectedBalances(held, cost);
      }
      assert Verified(old(catalog), answer) == if |held| == |ts| then Some(held) else None;
      assert catalog == CatalogAfter(old(catalog), answer);
    }
  }

  lemma UnusableIsSkipped(cat: Catalog, t: SummaryToken)
    ensures !Usable(t) ==> Resolve(cat, t) == (cat, None)
  {
  }

  lemma EmptyPass(cat: Catalog)
    ensures Resolved(cat, []) == [] && FinalCatalog(cat, []) == cat
  {
  }

  lemma NothingWritten(was: map<int, Row>, held: seq<Held>, cost: Option<map<int, Cost>>)
    ensures forall done: set<int> :: done == {} ==> Partly(was, was, done, held, cost)
  {
  }

  lemma OneWritten(
    was: map<int, Row>, now: map<int, Row>, done: set<int>, held: seq<Held>, cost: Option<map<int, Cost>>, token: int)
    requires Partly(was, now, done, held, cost) && token !in done
    ensures RowOf(now, token) == RowOf(was, token)
    ensures Partly(was, now[token := NewRow(was, held, cost, token)], done + {token}, held, cost)
  {
  }

  /** The rows that neither the summary nor the cost map names are sold out. */
  function Zeroed(now: map<int, Row>, ids: set<int>, cost: Option<map<int, Cost>>): map<int, Row> {
    map t | t in now :: if t in ids then now[t] else if cost.Some? then NEW_ROW else now[t].(balance := 0.0)
  }

  lemma ZeroRest(was: map<int, Row>, now: map<int, Row>, ids: set<int>, held: seq<Held>, cost: Option<map<int, Cost>>)
    requires ids == Named(held, cost) && Partly(was, now, ids, held, cost)
    ensures SetBalances(was, held, cost) == Zeroed(now, ids, cost)
  {
    forall t | t in was && t !in ids ensures BalanceOf(held, t) == 0.0 {
      BalanceOfLast(held, t);
    }
  }

  method IndexHeld(held: seq<Held>) returns (m: map<int, real>)
    ensures m.Keys == Tokens(held) && forall t :: BalanceOf(held, t) == if t in m then m[t] else 0.0
  {
    m := map[];
    var i := 0;
    while i < |held|
      invariant 0 <= i <= |held| && m.Keys == Tokens(held[..i])
      invariant forall t :: BalanceOf(held[..i], t) == if t in m then m[t] else 0.0
    {
      assert held[..i+1] == held[..i] + [held[i]];
      assert held[..i+1][..i] == held[..i];
      m := m[held[i].token := held[i].balance];
      i := i + 1;
    }
    assert held[..i] == held;
  }
}
