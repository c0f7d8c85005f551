/**
  Resolving a wallet's tokens to catalog rows (resolveOrCreateToken in
  src/modules/wallet-data/sync.private.ts): the contract first, then the symbol, else a new row. A pass
  changes the catalog it reads: a symbol match without a contract takes over the wallet's.
 */
module TokenCatalog {
  import opened Options

  /** A catalog row; its id is its position. Symbols and contracts are taken case-folded. */
  datatype Listing = Listing(symbol: string, contract: Option<string>)

  type Catalog = seq<Listing>

  /** A token of a provider's summary. */
  datatype SummaryToken = SummaryToken(symbol: string, contract: Option<string>, balance: real)

  const COLUMN_WIDTH := 255

  /** Symbols are the catalog's unique key; contracts are not. */
  predicate UniqueSymbols(cat: Catalog) {
    forall i, j :: 0 <= i < |cat| && 0 <= j < |cat| && cat[i].symbol == cat[j].symbol ==> i == j
  }

  predicate Usable(t: SummaryToken) { t.balance > 0.0 && t.symbol != "" }

  function Contract(t: SummaryToken): Option<string> { if t.contract == Some("") then None else t.contract }

  predicate Storable(s: Option<string>) { s.None? || |s.value| <= COLUMN_WIDTH }

  /** The first row with a contract. */
  function ByContract(cat: Catalog, c: Option<string>): (r: Option<nat>)
    ensures r.Some? ==> r.value < |cat| && c.Some? && cat[r.value].contract == c
    ensures r.None? && c.Some? ==> forall i :: 0 <= i < |cat| ==> cat[i].contract != c
  {
    if c.None? || cat == [] then None
    else
      var r := ByContract(cat[..|cat|-1], c);
      if r.Some? then r else if cat[|cat|-1].contract == c then Some(|cat| - 1) else None
  }

  function BySymbol(cat: Catalog, s: string): (r: Option<nat>)
    ensures r.Some? ==> r.value < |cat| && cat[r.value].symbol == s
    ensures r.None? ==> forall i :: 0 <= i < |cat| ==> cat[i].symbol != s
  {
    if cat == [] then None
    else
      var r := BySymbol(cat[..|cat|-1], s);
      if r.Some? then r else if cat[|cat|-1].symbol == s then Some(|cat| - 1) else None
  }

  /** The catalog after one token, and the row it resolved to; None is a token that was skipped. */
  function Resolve(cat: Catalog, t: SummaryToken): (Catalog, Option<nat>) {
    var c := Contract(t);
    if !Usable(t) then (cat, None)
    else if ByContract(cat, c).Some? then (cat, ByContract(cat, c))
    else
      match BySymbol(cat, t.symbol)
      case Some(i) =>
        if c.None? || cat[i].contract.Some? then (cat, Some(i))
        else if Storable(c) then (cat[i := cat[i].(contract := c)], Some(i))
        else (cat, None)
      case None =>
        if Storable(Some(t.symbol)) && Storable(c) then (cat + [Listing(t.symbol, c)], Some(|cat|)) else (cat, None)
  }

  /** The catalog once the first k tokens of a summary are resolved. */
  function CatalogAt(cat: Catalog, ts: seq<SummaryToken>, k: nat): Catalog
    requires k <= |ts|
  {
    if k == 0 then cat else Resolve(CatalogAt(cat, ts, k - 1), ts[k-1]).0
  }

  /** The row token k resolves to at its turn. */
  function IdAt(cat: Catalog, ts: seq<SummaryToken>, k: nat): Option<nat>
    requires k < |ts|
  {
    Resolve(CatalogAt(cat, ts, k), ts[k]).1
  }

  function FinalCatalog(cat: Catalog, ts: seq<SummaryToken>): Catalog { CatalogAt(cat, ts, |ts|) }

  // ---------------------------------------------------------------------------------------------
  // What a pass keeps
  // ---------------------------------------------------------------------------------------------

  /** Rows keep their place and symbol, a contract that is set stays, and a known one keeps its first row. */
  ghost predicate Grows(cat: Catalog, cat': Catalog) {
    && |cat| <= |cat'|
    && (forall i :: 0 <= i < |cat| ==> cat'[i].symbol == cat[i].symbol)
    && (forall i :: 0 <= i < |cat| && cat[i].contract.Some? ==> cat'[i].contract == cat[i].contract)
    && forall c :: ByContract(cat, c).Some? ==> ByContract(cat', c) == ByContract(cat, c)
  }

  lemma {:induction false} FirstByContract(cat: Catalog, c: Option<string>, i: nat)
    requires i < |cat| && c.Some? && cat[i].contract == c && forall j :: 0 <= j < i ==> cat[j].contract != c
    ensures ByContract(cat, c) == Some(i)
  {
    if i < |cat| - 1 {
      FirstByContract(cat[..|cat|-1], c, i);
    }
  }

  lemma {:induction false} EarlierByContract(cat: Catalog, c: Option<string>)
    ensures ByContract(cat, c).Some? ==> forall j :: 0 <= j < ByContract(cat, c).value ==> cat[j].contract != c
  {
    if c.Some? && cat != [] {
      EarlierByContract(cat[..|cat|-1], c);
    }
  }

  lemma ResolveGrows(cat: Catalog, t: SummaryToken)
    requires UniqueSymbols(cat)
    ensures UniqueSymbols(Resolve(cat, t).0) && Grows(cat, Resolve(cat, t).0)
    ensures forall c :: ByContract(Resolve(cat, t).0, c).Some? ==> ByContract(cat, c).Some? || c == Contract(t)
  {
    var cat' := Resolve(cat, t).0;
    forall c | ByContract(cat, c).Some? ensures ByContract(cat', c) == ByContract(cat, c) {
      EarlierByContract(cat, c);
      FirstByContract(cat', c, ByContract(cat, c).value);
    }
  }

  /** The row a token resolves to: the symbol its contract is known by, else its own. */
  function Ticker(cat: Catalog, t: SummaryToken): string {
    var i := ByContract(cat, Contract(t));
    if i.Some? then cat[i.value].symbol else t.symbol
  }

  lemma GrowsThrough(a: Catalog, b: Catalog, c: Catalog)
    ensures Grows(a, a) && (Grows(a, b) && Grows(b, c) ==> Grows(a, c))
  {
  }

  lemma {:induction false} PassGrows(cat: Catalog, ts: seq<SummaryToken>, i: nat, k: nat)
    requires UniqueSymbols(cat) && i <= k <= |ts|
    ensures UniqueSymbols(CatalogAt(cat, ts, k)) && Grows(CatalogAt(cat, ts, i), CatalogAt(cat, ts, k))
    decreases k
  {
    hide Resolve, ByContract, UniqueSymbols, Grows;
    GrowsThrough(CatalogAt(cat, ts, i), CatalogAt(cat, ts, i), CatalogAt(cat, ts, i));
    if k > 0 {
      var before := CatalogAt(cat, ts, k - 1);
      PassGrows(cat, ts, if i < k then i else i - 1, k - 1);
      ResolveGrows(before, ts[k-1]);
      GrowsThrough(CatalogAt(cat, ts, i), before, CatalogAt(cat, ts, k));
    }
  }

  // ---------------------------------------------------------------------------------------------
  // Which tokens share a row
  // ---------------------------------------------------------------------------------------------

  /** Two tokens of a summary resolve to one catalog row exactly when their tickers agree, each at its turn. */
  lemma SameRowIffSameTicker(cat: Catalog, ts: seq<SummaryToken>, i: nat, j: nat)
    requires UniqueSymbols(cat) && i < |ts| && j < |ts|
    requires IdAt(cat, ts, i).Some? && IdAt(cat, ts, j).Some?
    ensures IdAt(cat, ts, i) == IdAt(cat, ts, j)
      <==> Ticker(CatalogAt(cat, ts, i), ts[i]) == Ticker(CatalogAt(cat, ts, j), ts[j])
  {
    RowHasTicker(cat, ts, i);
    RowHasTicker(cat, ts, j);
    PassGrows(cat, ts, 0, |ts|);
  }

  lemma RowHasTicker(cat: Catalog, ts: seq<SummaryToken>, k: nat)
    requires UniqueSymbols(cat) && k < |ts| && IdAt(cat, ts, k).Some?
    ensures var id := IdAt(cat, ts, k).value;
            id < |FinalCatalog(cat, ts)| && FinalCatalog(cat, ts)[id].symbol == Ticker(CatalogAt(cat, ts, k), ts[k])
  {
    PassGrows(cat, ts, k + 1, |ts|);
  }

  /** No contract is reported for two tokens. */
  predicate OncePerContract(ts: seq<SummaryToken>) {
    forall i, j :: 0 <= i < j < |ts| && Contract(ts[i]).Some? ==> Contract(ts[i]) != Contract(ts[j])
  }

  /** A contract that a part of the pass has made known belongs to one of its tokens. */
  lemma {:induction false} NewContract(cat: Catalog, ts: seq<SummaryToken>, i: nat, k: nat, c: Option<string>)
    requires UniqueSymbols(cat) && i <= k <= |ts|
    requires ByContract(CatalogAt(cat, ts, i), c).None? && ByContract(CatalogAt(cat, ts, k), c).Some?
    ensures exists j :: i <= j < k && Contract(ts[j]) == c
    decreases k
  {
    hide ByContract, Resolve, UniqueSymbols;
    PassGrows(cat, ts, 0, k - 1);
    ResolveGrows(CatalogAt(cat, ts, k - 1), ts[k-1]);
    if ByContract(CatalogAt(cat, ts, k - 1), c).Some? {
      NewContract(cat, ts, i, k - 1, c);
    }
  }

  /** Then the tickers can be read off the catalog before the pass. */
  lemma TickerBefore(cat: Catalog, ts: seq<SummaryToken>, k: nat)
    requires UniqueSymbols(cat) && OncePerContract(ts) && k < |ts|
    ensures Ticker(CatalogAt(cat, ts, k), ts[k]) == Ticker(cat, ts[k])
  {
    var c := Contract(ts[k]);
    PassGrows(cat, ts, 0, k);
    if ByContract(cat, c).None? && ByContract(CatalogAt(cat, ts, k), c).Some? {
      NewContract(cat, ts, 0, k, c);
      assert false;
    }
  }

  // ---------------------------------------------------------------------------------------------
  // Resolving the same summary again
  // ---------------------------------------------------------------------------------------------

  ghost predicate Complete(cat: Catalog, ts: seq<SummaryToken>) {
    forall k :: 0 <= k < |ts| ==> IdAt(cat, ts, k).Some?
  }

  /** No contract becomes known after a token that carries it was matched by its symbol alone. */
  ghost predicate NoLateContract(cat: Catalog, ts: seq<SummaryToken>) {
    forall k :: 0 <= k < |ts| && ByContract(FinalCatalog(cat, ts), Contract(ts[k])).Some? ==>
      ByContract(CatalogAt(cat, ts, k + 1), Contract(ts[k])).Some?
  }

  /** After its turn a token's row is found by its contract, or by its symbol and has another contract. */
  lemma ResolvedRow(cat: Catalog, t: SummaryToken)
    requires Resolve(cat, t).1.Some?
    ensures var cat', id, c := Resolve(cat, t).0, Resolve(cat, t).1.value, Contract(t);
            && Usable(t) && id < |cat'|
            && (ByContract(cat', c).Some? ==> ByContract(cat', c) == Some(id))
            && (ByContract(cat', c).None? ==> cat'[id].symbol == t.symbol && (c.None? || cat'[id].contract.Some?))
  {
    hide ByContract, BySymbol;
    var cat', id := Resolve(cat, t).0, Resolve(cat, t).1.value;
    if ByContract(cat, Contract(t)).None? {
      OnlyNewRow(cat, cat', Contract(t), id);
    }
  }

  lemma OnlyNewRow(cat: Catalog, cat': Catalog, c: Option<string>, id: nat)
    requires ByContract(cat, c).None?
    requires forall i :: 0 <= i < |cat'| && i != id ==> i < |cat| && cat'[i].contract == cat[i].contract
    ensures ByContract(cat', c).Some? ==> ByContract(cat', c) == Some(id)
  {
  }

  lemma BySymbolAlone(cat: Catalog, t: SummaryToken, id: nat)
    requires UniqueSymbols(cat) && Usable(t) && id < |cat| && cat[id].symbol == t.symbol
    requires ByContract(cat, Contract(t)).None? && (Contract(t).None? || cat[id].contract.Some?)
    ensures Resolve(cat, t) == (cat, Some(id))
  {
  }

  lemma ByContractFirst(cat: Catalog, t: SummaryToken)
    requires Usable(t) && ByContract(cat, Contract(t)).Some?
    ensures Resolve(cat, t) == (cat, ByContract(cat, Contract(t)))
  {
  }

  lemma ResolveAgain(cat: Catalog, t: SummaryToken, later: Catalog)
    requires UniqueSymbols(later) && Resolve(cat, t).1.Some? && Grows(Resolve(cat, t).0, later)
    ensures Resolve(later, t).0 == later && Resolve(later, t).1.Some?
    ensures Resolve(later, t).1 == Resolve(cat, t).1
      <==> (ByContract(later, Contract(t)).Some? ==> ByContract(Resolve(cat, t).0, Contract(t)).Some?)
  {
    hide Resolve, UniqueSymbols, Usable;
    var c := Contract(t);
    var cat' := Resolve(cat, t).0;
    var id := Resolve(cat, t).1.value;
    ResolvedRow(cat, t);
    if ByContract(later, c).Some? {
      ByContractFirst(later, t);
      if ByContract(cat', c).None? {
        assert cat'[id].contract != c;
      }
    } else {
      BySymbolAlone(later, t, id);
    }
  }

  lemma {:induction false} SecondPass(cat: Catalog, ts: seq<SummaryToken>, k: nat)
    requires UniqueSymbols(cat) && Complete(cat, ts) && k <= |ts|
    ensures CatalogAt(FinalCatalog(cat, ts), ts, k) == FinalCatalog(cat, ts)
    decreases k
  {
    hide ByContract, Resolve, UniqueSymbols, Grows;
    if k > 0 {
      SecondPass(cat, ts, k - 1);
      PassGrows(cat, ts, k - 1, |ts|);
      PassGrows(cat, ts, 0, k - 1);
      PassGrows(cat, ts, k, |ts|);
      assert IdAt(cat, ts, k - 1).Some?;
      ResolveAgain(CatalogAt(cat, ts, k - 1), ts[k-1], FinalCatalog(cat, ts));
    }
  }

  lemma NextCatalog(cat: Catalog, ts: seq<SummaryToken>, k: nat)
    requires k < |ts|
    ensures CatalogAt(cat, ts, k + 1) == Resolve(CatalogAt(cat, ts, k), ts[k]).0
  {
  }

  ghost predicate SameIds(cat: Catalog, cat': Catalog, ts: seq<SummaryToken>) {
    forall k :: 0 <= k < |ts| ==> IdAt(cat', ts, k) == IdAt(cat, ts, k)
  }

  /**
    A second pass leaves the catalog alone, and it sends every token to the row of the first pass exactly
    when no contract was taken over behind the back of an earlier token that carries it too.
   */
  lemma SameRowsAgainIff(cat: Catalog, ts: seq<SummaryToken>)
    requires UniqueSymbols(cat) && Complete(cat, ts)
    ensures FinalCatalog(FinalCatalog(cat, ts), ts) == FinalCatalog(cat, ts)
    ensures SameIds(cat, FinalCatalog(cat, ts), ts) <==> NoLateContract(cat, ts)
  {
    hide ByContract, Resolve, UniqueSymbols, Grows, CatalogAt;
    var after := FinalCatalog(cat, ts);
    SecondPass(cat, ts, |ts|);
    forall k | 0 <= k < |ts|
      ensures IdAt(after, ts, k) == IdAt(cat, ts, k)
        <==> (ByContract(after, Contract(ts[k])).Some? ==> ByContract(CatalogAt(cat, ts, k + 1), Contract(ts[k])).Some?)
    {
      SecondPass(cat, ts, k);
      PassGrows(cat, ts, 0, k);
      PassGrows(cat, ts, k + 1, |ts|);
      NextCatalog(cat, ts, k);
      assert IdAt(cat, ts, k).Some?;
      ResolveAgain(CatalogAt(cat, ts, k), ts[k], after);
    }
  }

  lemma OncePerContractIsNeverLate(cat: Catalog, ts: seq<SummaryToken>)
    requires UniqueSymbols(cat) && OncePerContract(ts)
    ensures NoLateContract(cat, ts)
  {
    forall k | 0 <= k < |ts| && ByContract(FinalCatalog(cat, ts), Contract(ts[k])).Some?
      ensures ByContract(CatalogAt(cat, ts, k + 1), Contract(ts[k])).Some?
    {
      if ByContract(CatalogAt(cat, ts, k + 1), Contract(ts[k])).None? {
        NewContract(cat, ts, k + 1, |ts|, Contract(ts[k]));
      }
    }
  }
}
