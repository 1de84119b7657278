/** `add_market_data` and the `portfolio_total` template filter. Lookups run one
    after another here; in the source they run on a pool of ten threads. */
module Valuation {
  import opened Common
  import opened QuoteCache
  import opened Positions

  /** The tickers of a list of positions. */
  function Tickers(s: seq<Position>): (r: set<string>)
    ensures forall i :: 0 <= i < |s| ==> s[i].ticker in r
    ensures forall t :: t in r ==> exists i :: 0 <= i < |s| && s[i].ticker == t
  {
    set i | 0 <= i < |s| :: s[i].ticker
  }

  /** The fields `add_market_data` writes into a position for a quote:
      `total_value` is price * quantity when both are numbers, else 'N/A'. */
  function Valuate(q: Quote, quantity: Quantity): (m: MarketFields)
    ensures m.quote == q
    ensures m.totalValue.Some? <==> q.price.Some? && quantity.Some?
    ensures m.totalValue.Some? ==> m.totalValue.value == q.price.value * quantity.value
  {
    var total :=
      match (q.price, quantity)
      case (Some(price), Some(amount)) => Some(price * amount)
      case _ => None;
    MarketFields(q, total)
  }

  /** The quote cache after the lookups of `add_market_data` for positions
      with the tickers `ts`, compared with the table `before` them: looked-up
      tickers whose entry was live are unchanged, the others hold the
      provider's normalised answer stamped `now`, and nothing else changes. */
  ghost predicate LookedUp(before: QuoteTable, after: QuoteTable, ts: set<string>, now: int, provider: string -> Reply)
  {
    && after.Keys == before.Keys + ts
    && (forall t :: t in before && t !in ts ==> after[t] == before[t])
    && (forall t :: t in ts ==>
          if LiveQuote(before, t, now) then after[t] == before[t]
          else after[t] == Entry(Normalise(provider(t)), now))
  }

  /** The first half of `add_market_data`: one `get_stock_info` per position,
      collected in `ticker_data`, where a later lookup of a ticker replaces an
      earlier one (and, being a cache hit, yields the same data). */
  method FetchQuotes(items: seq<Position>, quotes: MarketDataCache, now: int, provider: string -> Reply)
    returns (tickerData: map<string, Quote>)
    requires quotes.Valid()
    modifies quotes
    ensures quotes.Valid()
    ensures tickerData.Keys == Tickers(items)
    ensures forall t :: t in tickerData ==> t in quotes.table && quotes.table[t].value == tickerData[t]
    ensures LookedUp(old(quotes.table), quotes.table, Tickers(items), now, provider)
  {
    ghost var before := quotes.table;
    tickerData := map[];
    var i := 0;
    while i < |items|
      invariant 0 <= i <= |items|
      invariant quotes.Valid()
      invariant tickerData.Keys == Tickers(items[..i])
      invariant forall t :: t in tickerData ==>
        t in quotes.table && quotes.table[t].value == tickerData[t] && LiveQuote(quotes.table, t, now)
      invariant LookedUp(before, quotes.table, tickerData.Keys, now, provider)
    {
      var ticker := items[i].ticker;
      LookedUpStep(before, quotes.table, tickerData.Keys, ticker, now, provider);
      var data := quotes.GetStockInfo(ticker, now, provider(ticker));
      tickerData := tickerData[ticker := data];
      TickersSnoc(items, i);
      i := i + 1;
    }
    assert items[..i] == items;
  }

  lemma TickersSnoc(items: seq<Position>, i: nat)
    requires i < |items|
    ensures Tickers(items[..i + 1]) == Tickers(items[..i]) + {items[i].ticker}
  {
  }

  /** One more lookup keeps `LookedUp` and leaves every looked-up ticker live. */
  lemma LookedUpStep(before: QuoteTable, table: QuoteTable, ts: set<string>, ticker: string, now: int,
                     provider: string -> Reply)
    requires LookedUp(before, table, ts, now, provider)
    requires forall t :: t in ts ==> LiveQuote(table, t, now)
    ensures var next := StockInfo(table, ticker, now, provider(ticker)).1;
      && LookedUp(before, next, ts + {ticker}, now, provider)
      && forall t :: t in ts + {ticker} ==> LiveQuote(next, t, now)
  {
  }

  /** `add_market_data(portfolio)` at time `now`; `provider(t)` stands for what
      the quote provider answers for ticker `t`. Every position keeps its
      ticker and quantity and gets the fields of the quote the cache now holds
      for its ticker. */
  method AddMarketData(portfolio: PositionList, quotes: MarketDataCache, now: int, provider: string -> Reply)
    requires quotes.Valid()
    modifies portfolio, quotes
    ensures quotes.Valid()
    ensures LookedUp(old(quotes.table), quotes.table, Tickers(old(portfolio.items)), now, provider)
    ensures |portfolio.items| == |old(portfolio.items)|
    ensures Valued(portfolio.items) && Project(portfolio.items) == Project(old(portfolio.items))
    ensures forall i :: 0 <= i < |portfolio.items| ==>
      var p := old(portfolio.items)[i];
      && p.ticker in quotes.table
      && portfolio.items[i] == p.(market := Some(Valuate(quotes.table[p.ticker].value, p.quantity)))
  {
    var items := portfolio.items;
    var tickerData := FetchQuotes(items, quotes, now, provider);
    // Update portfolio with market data, one position at a time.
    var i := 0;
    while i < |items|
      modifies portfolio
      invariant 0 <= i <= |items|
      invariant |portfolio.items| == |items|
      invariant forall j :: 0 <= j < i ==>
        portfolio.items[j] == items[j].(market := Some(Valuate(tickerData[items[j].ticker], items[j].quantity)))
      invariant forall j :: i <= j < |items| ==> portfolio.items[j] == items[j]
    {
      var position := portfolio.items[i];
      var marketData := tickerData[position.ticker];
      portfolio.items := portfolio.items[i := position.(market := Some(Valuate(marketData, position.quantity)))];
      i := i + 1;
    }
    ProjectIgnoresMarket(portfolio.items, items);
  }

  /** A position's contribution to the portfolio total: its numeric
      `total_value`, nothing for 'N/A'. */
  function Contribution(p: Position): real
    requires p.market.Some?
  {
    match p.market.value.totalValue
    case Some(v) => v
    case None => 0.0
  }

  /** Every position carries a `total_value` key. */
  predicate Valued(s: seq<Position>)
  {
    forall i :: 0 <= i < |s| ==> s[i].market.Some?
  }

  /** The sum of the numeric totals, 'N/A' entries contributing nothing. */
  function Total(s: seq<Position>): real
    requires Valued(s)
  {
    if |s| == 0 then 0.0 else Total(s[..|s| - 1]) + Contribution(s[|s| - 1])
  }

  /** The total of a concatenation is the sum of the totals. */
  lemma {:induction false} TotalConcat(a: seq<Position>, b: seq<Position>)
    requires Valued(a) && Valued(b)
    ensures Valued(a + b) && Total(a + b) == Total(a) + Total(b)
    decreases |b|
  {
    if |b| > 0 {
      var n := |b| - 1;
      assert (a + b)[..|a + b| - 1] == a + b[..n];
      TotalConcat(a, b[..n]);
    } else {
      assert a + b == a;
    }
  }

  /** A position whose total is 'N/A' does not change the portfolio total:
      the total is that of the other positions. */
  lemma TotalSkipsSentinel(s: seq<Position>, i: nat)
    requires Valued(s) && i < |s| && s[i].market.value.totalValue.None?
    ensures Valued(s[..i] + s[i + 1..]) && Total(s) == Total(s[..i] + s[i + 1..])
  {
    assert s == s[..i] + [s[i]] + s[i + 1..];
    TotalConcat(s[..i], [s[i]]);
    TotalConcat(s[..i] + [s[i]], s[i + 1..]);
    TotalConcat(s[..i], s[i + 1..]);
    assert Total([s[i]]) == 0.0 by {
      assert [s[i]][..0] == [];
    }
  }

  /** `portfolio_total(portfolio)`: accumulate the numeric totals in order.
      The source reads `total_value` of every position, so it needs a valued
      portfolio (a position without the key raises). */
  method PortfolioTotal(portfolio: seq<Position>) returns (total: real)
    requires Valued(portfolio)
    ensures total == Total(portfolio)
  {
    total := 0.0;
    var i := 0;
    while i < |portfolio|
      invariant 0 <= i <= |portfolio|
      invariant total == Total(portfolio[..i])
    {
      assert portfolio[..i + 1][..i] == portfolio[..i];
      var value := portfolio[i].market.value.totalValue;
      if value.Some? {
        total := total + value.value;
      }
      i := i + 1;
    }
    assert portfolio[..i] == portfolio;
  }
}
