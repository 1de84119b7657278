/** The per-ticker market data cache (`market_data_cache`) and the lookup that
    fills it (`get_stock_info`). The quote provider is not modelled: each lookup
    is given the `Reply` the provider would answer with. */
module QuoteCache {
  import opened Common

  /** Lifetime of a cached quote, in seconds. */
  const MARKET_DATA_CACHE_DURATION: int := 300

  /** A value found in the provider's info dictionary: Python's None, a value
      that float() accepts, or any other value (float() rejects it). */
  datatype Field = Null | Num(x: real) | Text(s: string)

  /** One provider lookup: it raised, or it gave its info dictionary. */
  datatype Reply = Failed | Info(fields: map<string, Field>)

  /** Normalised market data. A price of None stands for the sentinel 'N/A'. */
  datatype Quote = Quote(price: Option<real>, dividendYield: Field)

  /** The data cached and returned when the provider raised. */
  const UNAVAILABLE: Quote := Quote(None, Num(0.0))

  /** A quote as the lookup leaves it: the dividend yield is never None. */
  predicate Normal(q: Quote)
  {
    !q.dividendYield.Null?
  }

  type QuoteTable = map<string, Entry<Quote>>

  predicate AllNormal(table: QuoteTable)
  {
    forall t :: t in table ==> Normal(table[t].value)
  }

  /** The 'currentPrice' field made a number, or 'N/A' when it is missing, is
      already 'N/A', or float() rejects it. */
  function PriceOf(fields: map<string, Field>): Option<real>
  {
    if "currentPrice" in fields then
      match fields["currentPrice"]
      case Num(x) => Some(x)
      case _ => None
    else None
  }

  /** The 'dividendYield' field, with 0 for a missing field or a None value. */
  function DividendYieldOf(fields: map<string, Field>): Field
  {
    var y := if "dividendYield" in fields then fields["dividendYield"] else Num(0.0);
    if y.Null? then Num(0.0) else y
  }

  /** The data the lookup stores for a provider reply. */
  function Normalise(reply: Reply): (q: Quote)
    ensures Normal(q)
    ensures reply.Failed? ==> q == UNAVAILABLE
    ensures reply.Info? ==>
      (q.price.Some? <==> "currentPrice" in reply.fields && reply.fields["currentPrice"].Num?)
    ensures reply.Info? && q.price.Some? ==> q.price.value == reply.fields["currentPrice"].x
    ensures reply.Info? && "dividendYield" in reply.fields && !reply.fields["dividendYield"].Null? ==>
      q.dividendYield == reply.fields["dividendYield"]
    ensures reply.Info? && ("dividendYield" !in reply.fields || reply.fields["dividendYield"].Null?) ==>
      q.dividendYield == Num(0.0)
  {
    match reply
    case Failed => UNAVAILABLE
    case Info(fields) => Quote(PriceOf(fields), DividendYieldOf(fields))
  }

  /** The ticker has an entry young enough to be served without asking the provider. */
  predicate LiveQuote(table: QuoteTable, ticker: string, now: int)
  {
    ticker in table && Live(table[ticker], now, MARKET_DATA_CACHE_DURATION)
  }

  /** One `get_stock_info` call at time `now`: the data returned and the table
      afterwards. `reply` is what the provider would answer; it is only
      consulted when the entry is missing or expired. */
  function StockInfo(table: QuoteTable, ticker: string, now: int, reply: Reply): (r: (Quote, QuoteTable))
    ensures ticker in r.1 && r.1[ticker].value == r.0
    ensures LiveQuote(r.1, ticker, now)
    ensures r.1.Keys == table.Keys + {ticker}
    ensures forall t :: t in table && t != ticker ==> r.1[t] == table[t]
    ensures LiveQuote(table, ticker, now) ==> r.1 == table
    ensures !LiveQuote(table, ticker, now) ==> r.0 == Normalise(reply) && r.1[ticker].timestamp == now
    ensures AllNormal(table) ==> AllNormal(r.1)
  {
    if LiveQuote(table, ticker, now) then (table[ticker].value, table)
    else
      var data := Normalise(reply);
      (data, table[ticker := Entry(data, now)])
  }

  /** A lookup that went to the provider is followed, for the next 300 seconds,
      only by cache hits: the second call does not ask the provider, returns
      the same data and leaves the table as the first call left it. */
  lemma RepeatWithinWindowHits(table: QuoteTable, ticker: string, t1: int, t2: int, r1: Reply, r2: Reply)
    requires !LiveQuote(table, ticker, t1)
    requires t2 - t1 < MARKET_DATA_CACHE_DURATION
    ensures var first := StockInfo(table, ticker, t1, r1);
      LiveQuote(first.1, ticker, t2) && StockInfo(first.1, ticker, t2, r2) == first
  {
  }

  /** Once 300 seconds have passed since an entry was stored, the next lookup
      asks the provider again and overwrites the entry with the new data. */
  lemma ExpiredEntryRefetched(table: QuoteTable, ticker: string, now: int, reply: Reply)
    requires ticker in table && now - table[ticker].timestamp >= MARKET_DATA_CACHE_DURATION
    ensures !LiveQuote(table, ticker, now)
    ensures StockInfo(table, ticker, now, reply).1[ticker] == Entry(Normalise(reply), now)
  {
  }

  /** The shared quote cache of the process. */
  class MarketDataCache {
    var table: QuoteTable

    ghost predicate Valid()
      reads this
    {
      AllNormal(table)
    }

    constructor ()
      ensures Valid() && table == map[]
    {
      table := map[];
    }

    /** `get_stock_info(ticker)` at time `now`, `reply` standing for the provider. */
    method GetStockInfo(ticker: string, now: int, reply: Reply) returns (data: Quote)
      requires Valid()
      modifies this
      ensures Valid() && Normal(data)
      ensures (data, table) == StockInfo(old(table), ticker, now, reply)
    {
      if ticker in table {
        var entry := table[ticker];
        if now - entry.timestamp < MARKET_DATA_CACHE_DURATION {
          return entry.value;
        }
      }
      data := Normalise(reply);
      table := table[ticker := Entry(data, now)];
    }
  }
}
