/**
 * `ExchangeSession.FindPossibleSymbols` of `pkg/engine/session.go`: the symbols a session should
 * sync trades for. The session's margin flags, the fiat currency list, the account's balances and
 * the session's markets are given as parameters.
 */
module Sessions {
  import opened Wrappers
  import opened Balances
  import opened Markets

  /** The fiat currencies of `fiatCurrencies`, in that order, that the account holds a positive total of. */
  function FiatAssets(fiatCurrencies: seq<string>, balances: BalanceMap): (assets: seq<string>)
    ensures forall c :: c in assets <==> c in fiatCurrencies && c in balances && balances[c].Total() > 0.0
    ensures |assets| <= |fiatCurrencies|
    decreases |fiatCurrencies|
  {
    if fiatCurrencies == [] then []
    else
      var init, c := fiatCurrencies[..|fiatCurrencies| - 1], fiatCurrencies[|fiatCurrencies| - 1];
      assert fiatCurrencies == init + [c];
      var before := FiatAssets(init, balances);
      if c in balances && balances[c].Total() > 0.0 then before + [c] else before
  }

  /** A market worth syncing: quoted in a held fiat currency, with a non-zero total of its base currency. */
  predicate Eligible(m: Market, fiatAssets: seq<string>, balances: BalanceMap) {
    m.quoteCurrency in fiatAssets && m.baseCurrency in balances && balances[m.baseCurrency].Total() != 0.0
  }

  /** The symbols of the eligible markets. */
  function PossibleSymbols(fiatCurrencies: seq<string>, balances: BalanceMap, markets: map<string, Market>): set<string> {
    var assets := FiatAssets(fiatCurrencies, balances);
    set k | k in markets && Eligible(markets[k], assets, balances) :: markets[k].symbol
  }

  /**
   * A possible symbol is the symbol of a market quoted in a fiat currency the account holds a
   * positive total of and based in a currency whose total is not zero; every such market's
   * symbol is possible.
   */
  lemma {:induction false} PossibleSymbolsExact(fiatCurrencies: seq<string>, balances: BalanceMap, markets: map<string, Market>, s: string)
    ensures s in PossibleSymbols(fiatCurrencies, balances, markets) <==>
      exists k :: k in markets && markets[k].symbol == s
        && markets[k].quoteCurrency in fiatCurrencies
        && markets[k].quoteCurrency in balances && balances[markets[k].quoteCurrency].Total() > 0.0
        && markets[k].baseCurrency in balances && balances[markets[k].baseCurrency].Total() != 0.0
  {
    var assets := FiatAssets(fiatCurrencies, balances);
    if s in PossibleSymbols(fiatCurrencies, balances, markets) {
      var k :| k in markets && Eligible(markets[k], assets, balances) && markets[k].symbol == s;
      assert markets[k].quoteCurrency in assets;
    }
  }

  /** A session holding no fiat currency has nothing to sync, whatever its markets. */
  lemma {:induction false} NoFiatNoSymbols(fiatCurrencies: seq<string>, balances: BalanceMap, markets: map<string, Market>)
    requires forall c :: c in fiatCurrencies && c in balances ==> balances[c].Total() <= 0.0
    ensures PossibleSymbols(fiatCurrencies, balances, markets) == {}
  {
    var assets := FiatAssets(fiatCurrencies, balances);
    assert forall c :: c !in assets;
  }

  /** Pairwise-distinct entries. */
  predicate Distinct(xs: seq<string>) {
    forall i, j :: 0 <= i < j < |xs| ==> xs[i] != xs[j]
  }

  /** The loop collecting the held fiat currencies. */
  method CollectFiatAssets(fiatCurrencies: seq<string>, balances: BalanceMap) returns (fiatAssets: seq<string>)
    ensures fiatAssets == FiatAssets(fiatCurrencies, balances)
  {
    fiatAssets := [];
    var i := 0;
    while i < |fiatCurrencies|
      invariant 0 <= i <= |fiatCurrencies|
      invariant fiatAssets == FiatAssets(fiatCurrencies[..i], balances)
    {
      var currency := fiatCurrencies[i];
      assert fiatCurrencies[..i + 1][..i] == fiatCurrencies[..i];
      if currency in balances && balances[currency].Total() > 0.0 {
        fiatAssets := fiatAssets + [currency];
      }
      i := i + 1;
    }
    assert fiatCurrencies[..|fiatCurrencies|] == fiatCurrencies;
  }

  /** The loop over the markets, in whatever order the map yields them, into the symbol set. */
  method CollectSymbols(fiatAssets: seq<string>, balances: BalanceMap, markets: map<string, Market>) returns (symbolMap: set<string>)
    ensures symbolMap == set k | k in markets && Eligible(markets[k], fiatAssets, balances) :: markets[k].symbol
  {
    symbolMap := {};
    var todo := markets.Keys;
    while todo != {}
      invariant todo <= markets.Keys
      invariant symbolMap == set k | k in markets && k !in todo && Eligible(markets[k], fiatAssets, balances) :: markets[k].symbol
      decreases todo
    {
      var k :| k in todo;
      var market := markets[k];
      todo := todo - {k};
      if Eligible(market, fiatAssets, balances) {
        symbolMap := symbolMap + {market.symbol};
      }
    }
  }

  /** The loop turning the symbol set into a list, in whatever order the map yields them. */
  method ListSymbols(symbolMap: set<string>) returns (symbols: seq<string>)
    ensures forall s :: s in symbols <==> s in symbolMap
    ensures Distinct(symbols)
    ensures |symbols| == |symbolMap|
  {
    symbols := [];
    var todo := symbolMap;
    while todo != {}
      invariant todo <= symbolMap
      invariant forall s :: s in symbols <==> s in symbolMap && s !in todo
      invariant Distinct(symbols)
      invariant |symbols| + |todo| == |symbolMap|
      decreases todo
    {
      var s :| s in todo;
      symbols := symbols + [s];
      todo := todo - {s};
    }
  }

  /**
   * `ExchangeSession.FindPossibleSymbols`: an isolated-margin session syncs exactly its isolated
   * symbol; any other session syncs each possible symbol once, in no particular order. The error
   * is always nil.
   */
  method FindPossibleSymbols(margin: bool, isolatedMargin: bool, isolatedMarginSymbol: string,
                             fiatCurrencies: seq<string>, balances: BalanceMap, markets: map<string, Market>)
    returns (symbols: seq<string>, err: Option<string>)
    ensures err == None
    ensures margin && isolatedMargin ==> symbols == [isolatedMarginSymbol]
    ensures !(margin && isolatedMargin) ==>
      (forall s :: s in symbols <==> s in PossibleSymbols(fiatCurrencies, balances, markets))
      && Distinct(symbols)
  {
    if margin && isolatedMargin {
      return [isolatedMarginSymbol], None;
    }
    var fiatAssets := CollectFiatAssets(fiatCurrencies, balances);
    var symbolMap := CollectSymbols(fiatAssets, balances, markets);
    symbols := ListSymbols(symbolMap);
    err := None;
  }
}
